/**
 The graceful-restart helper over whole runs: when routes are retained, for how
 long, and what the end of retention leaves behind.
 */
module GracefulRestart {
  import opened BgpTypes
  import opened Propagation
  import opened Speaker
  import opened SpeakerRuns
  import opened PeerSessions

  /** Families are retained exactly while a deadline runs; a cutoff exists only meanwhile. */
  predicate RetentionOk(p: Peer) {
    && (p.grStale != {} <==> p.grDeadline.Some?)
    && (p.grCutoff.Some? ==> p.grStale != {})
  }

  /** One step keeps the invariant, and a deadline that is still running is the same one. */
  ghost predicate RetentionStep(grEnabled: bool, p: Peer, q: Peer) {
    RetentionOk(p) ==>
      && RetentionOk(q)
      && (p.grDeadline.Some? && q.grDeadline.Some? ==> q.grDeadline == p.grDeadline)
      && (!grEnabled && p.grStale == {} ==> q.grStale == {})
  }

  lemma TeardownRetention(s: Speaker, addr: Address, why: Reason, now: nat)
    requires addr in s.peers
    ensures RetentionStep(s.grEnabled, s.peers[addr], Teardown(s, addr, why, now).peers[addr])
  {}

  lemma CompleteRetention(s: Speaker, addr: Address, family: Family)
    requires addr in s.peers
    ensures var r := CompleteFamily(s, addr, family); addr in r.peers && RetentionStep(s.grEnabled, s.peers[addr], r.peers[addr])
  {
    var s1 := PurgeStale(s, addr, family);
    assert s1.peers == s.peers;
  }

  lemma HandleRetention(s: Speaker, addr: Address, u: Update, now: nat)
    requires addr in s.peers
    ensures var r := HandleUpdate(s, addr, u, now); addr in r.peers && RetentionStep(s.grEnabled, s.peers[addr], r.peers[addr])
  {
    var s1 := ImportUpdate(s, addr, u, now).0;
    UpdatePlays(s, addr, u, now);
    assert s1.grEnabled == s.grEnabled;
    TeardownRetention(s1, addr, Protocol, now);
    CompleteRetention(s1, addr, IPV4_UNICAST);
  }

  lemma ReconcileRetention(s: Speaker, addr: Address, families: set<Family>, gr: Option<GrCapability>, now: nat)
    requires addr in s.peers
    ensures var r := ReconcileOpen(s, addr, families, gr, now);
            && RetentionStep(s.grEnabled, s.peers[addr], r.peers[addr])
            && r.peers == s.peers[addr := r.peers[addr]]
  {
    assert PurgeStale(s, addr, IPV4_UNICAST).peers == s.peers;
    assert s.peers[addr := s.peers[addr]] == s.peers;
  }

  lemma OpenRetention(s: Speaker, addr: Address, routerId: Address, families: set<Family>, gr: Option<GrCapability>, now: nat)
    requires addr in s.peers
    ensures var r := OpenAccepted(s, addr, routerId, families, gr, now);
            addr in r.peers && RetentionStep(s.grEnabled, s.peers[addr], r.peers[addr])
  {
    ReconcileRetention(s, addr, families, gr, now);
  }

  /** Polling past the deadline ends the peer's retention and purges what predates its cutoff. */
  lemma {:induction false} ExpireEnds(s: Speaker, addrs: seq<Address>, now: nat, addr: Address)
    requires addr in s.peers && forall i :: 0 <= i < |addrs| ==> addrs[i] in s.peers
    requires Expired(s.peers[addr], now)
    ensures var r := ExpireIn(s, addrs, now);
            if addr in addrs then
              && r.peers[addr] == EndRetention(s.peers[addr])
              && TableOf(r.adjRibIn, addr) ==
                   if IPV4_UNICAST in s.peers[addr].grStale
                   then Survivors(TableOf(s.adjRibIn, addr), s.peers[addr].grCutoff)
                   else TableOf(s.adjRibIn, addr)
            else Framed(s, r, addr)
    decreases |addrs|
  {
    if addrs != [] {
      var n := |addrs| - 1;
      ExpireEnds(s, addrs[..n], now, addr);
      var s1 := ExpireIn(s, addrs[..n], now);
      if addrs[n] != addr {
        FlushFrame(s1, addrs[n], addr);
      } else {
        SetTableLook(s1, addr, Survivors(TableOf(s1.adjRibIn, addr), s1.peers[addr].grCutoff));
      }
    }
  }

  lemma PollRetention(s: Speaker, now: nat, addr: Address)
    requires addr in s.peers
    ensures var r := PollTail(s, now);
            && addr in r.peers && RetentionStep(s.grEnabled, s.peers[addr], r.peers[addr])
            && !Expired(r.peers[addr], now)
  {
    AscendingMembers(s.peers.Keys);
    if Expired(s.peers[addr], now) {
      ExpireEnds(s, Ascending(s.peers.Keys), now, addr);
    } else {
      PollFrame(s, now, addr);
    }
  }

  // Refresh markers, FSM progress and role changes leave the retention state alone.

  lemma RefreshRetention(s: Speaker, addr: Address)
    requires addr in s.peers
    ensures RetentionStep(s.grEnabled, s.peers[addr], BeginRefresh(s, addr).peers[addr])
    ensures RetentionStep(s.grEnabled, s.peers[addr], EndRefresh(s, addr).peers[addr])
  {}

  lemma ProgressRetention(s: Speaker, addr: Address)
    requires addr in s.peers
    ensures RetentionStep(s.grEnabled, s.peers[addr], OpenSentOn(s, addr).peers[addr])
    ensures RetentionStep(s.grEnabled, s.peers[addr], SessionUp(s, addr).peers[addr])
    ensures RetentionStep(s.grEnabled, s.peers[addr], Adopt(s, addr).peers[addr])
  {}

  lemma SettingRetention(s: Speaker, addr: Address, x: Setting)
    requires addr in s.peers
    ensures RetentionStep(s.grEnabled, s.peers[addr], Adjust(s, addr, x).peers[addr])
  {}

  lemma RoleRetention(s: Speaker, addr: Address, on: bool)
    requires addr in s.peers
    ensures RetentionStep(s.grEnabled, s.peers[addr], SetClient(s, addr, on).peers[addr])
  {}

  lemma StepRetention(s: Speaker, op: Op, addr: Address)
    requires addr in s.peers
    ensures var r := Apply(s, op); addr in r.peers && RetentionStep(s.grEnabled, s.peers[addr], r.peers[addr])
  {
    if op.Poll? {
      PollRetention(s, op.now, addr);
    } else if Elsewhere(s, op, addr) {
      ElsewhereFrame(s, op, addr);
    } else {
      match op
      case Receive(a, u, now) => HandleRetention(s, a, u, now);
      case EndOfRib(a, family) => CompleteRetention(s, a, family);
      case Open(a, routerId, families, gr, now) => OpenRetention(s, a, routerId, families, gr, now);
      case Down(a, why, now) => TeardownRetention(s, a, why, now);
      case Borr(a) => RefreshRetention(s, a);
      case Eorr(a) => RefreshRetention(s, a);
      case SendOpen(a) => ProgressRetention(s, a);
      case Up(a) => ProgressRetention(s, a);
      case SetRole(a, on) => RoleRetention(s, a, on);
      case Adoption(a) => ProgressRetention(s, a);
      case Set(a, x) => SettingRetention(s, a, x);
    }
  }

  /** Graceful restart is not switched on during the run. */
  ghost predicate NeverEnabled(ops: seq<Op>) {
    forall k :: 0 <= k < |ops| ==> ops[k] != Helper(true)
  }

  lemma {:induction false} RunRetention(s: Speaker, ops: seq<Op>, addr: Address)
    requires addr in s.peers && RetentionOk(s.peers[addr])
    ensures var r := Run(s, ops);
            && addr in r.peers && RetentionOk(r.peers[addr])
            && (!s.grEnabled && NeverEnabled(ops) && s.peers[addr].grStale == {} ==>
                  !r.grEnabled && r.peers[addr].grStale == {})
    decreases |ops|
  {
    if ops != [] {
      var n := |ops| - 1;
      RunRetention(s, ops[..n], addr);
      StepRetention(Run(s, ops[..n]), ops[n], addr);
    }
  }

  // ------------------------------------------------------------- main results

  /** In every run, a peer has stale families exactly when a retention deadline is set. */
  lemma StaleIffDeadline(s: Speaker, ops: seq<Op>, addr: Address)
    requires Initial(s) && addr in s.peers
    ensures addr in Run(s, ops).peers
    ensures Run(s, ops).peers[addr].grStale != {} <==> Run(s, ops).peers[addr].grDeadline.Some?
  {
    RunRetention(s, ops, addr);
  }

  /** However often the transport flaps during one restart, the deadline stays where it was. */
  lemma {:induction false} DeadlineNeverMoves(s: Speaker, ops: seq<Op>, addr: Address)
    requires addr in s.peers && RetentionOk(s.peers[addr])
    requires forall k :: 0 <= k <= |ops| ==>
               addr in Run(s, ops[..k]).peers && Run(s, ops[..k]).peers[addr].grDeadline.Some?
    ensures addr in Run(s, ops).peers && Run(s, ops).peers[addr].grDeadline == s.peers[addr].grDeadline
    decreases |ops|
  {
    if ops != [] {
      var n := |ops| - 1;
      forall k | 0 <= k <= n
        ensures addr in Run(s, ops[..n][..k]).peers && Run(s, ops[..n][..k]).peers[addr].grDeadline.Some?
      {
        assert ops[..n][..k] == ops[..k];
      }
      DeadlineNeverMoves(s, ops[..n], addr);
      RunRetention(s, ops[..n], addr);
      assert ops[..|ops|] == ops;
      StepRetention(Run(s, ops[..n]), ops[n], addr);
    }
  }

  lemma PollSettles(s: Speaker, now: nat, addr: Address)
    requires addr in s.peers && RetentionOk(s.peers[addr])
    ensures var p := Apply(s, Poll(now)).peers;
            addr in p && (p[addr].grStale != {} ==> p[addr].grDeadline.Some? && now < p[addr].grDeadline.value)
  {
    PollRetention(s, now, addr);
  }

  /** After a poll, whatever is still retained has a deadline in the future. */
  lemma PollEndsOverdueRetention(s: Speaker, ops: seq<Op>, now: nat, addr: Address)
    requires Initial(s) && addr in s.peers
    ensures var p := Apply(Run(s, ops), Poll(now)).peers;
            addr in p && (p[addr].grStale != {} ==> p[addr].grDeadline.Some? && now < p[addr].grDeadline.value)
  {
    RunRetention(s, ops, addr);
    PollSettles(Run(s, ops), now, addr);
  }

  /** While graceful restart stays disabled nothing is ever retained, so the Loc-RIB stays coherent. */
  lemma DisabledNeverRetains(s: Speaker, ops: seq<Op>)
    requires Initial(s) && !s.grEnabled && NeverEnabled(ops)
    ensures NeverRetains(s, ops)
  {
    forall k | 0 <= k <= |ops| ensures NoRetention(Run(s, ops[..k])) {
      forall a | a in Run(s, ops[..k]).peers ensures Run(s, ops[..k]).peers[a].grStale == {} {
        RunRetention(s, ops[..k], a);
      }
    }
  }

  /**
   A peer that is lost a second time during its restart and never comes back: once
   the deadline has passed its table is empty if and only if nothing was accepted
   from it after the replacement OPEN. Otherwise those paths outlive the session.
   */
  lemma LostAgainLeavesNothingIff(s: Speaker, addr: Address, lost: nat, now: nat)
    requires addr in s.peers && RetentionOk(s.peers[addr]) && IPV4_UNICAST in s.peers[addr].grStale
    requires now >= s.peers[addr].grDeadline.value
    ensures var r := Apply(Apply(s, Down(addr, Transport, lost)), Poll(now));
            var t := TableOf(s.adjRibIn, addr);
            && addr in r.peers && r.peers[addr].state.Idle? && r.peers[addr].grStale == {}
            && TableOf(r.adjRibIn, addr) == Survivors(t, s.peers[addr].grCutoff)
            && (TableOf(r.adjRibIn, addr) == map[] <==>
                s.peers[addr].grCutoff.None? || forall p :: p in t ==> t[p].receivedAt < s.peers[addr].grCutoff.value)
  {
    var down := Apply(s, Down(addr, Transport, lost));
    assert down.peers[addr].grStale == s.peers[addr].grStale;
    AscendingMembers(down.peers.Keys);
    ExpireEnds(down, Ascending(down.peers.Keys), now, addr);
    NothingSurvivesIff(TableOf(s.adjRibIn, addr), s.peers[addr].grCutoff);
  }

  lemma NothingSurvivesIff(t: Table, cutoff: Option<nat>)
    ensures Survivors(t, cutoff) == map[] <==> cutoff.None? || forall p :: p in t ==> t[p].receivedAt < cutoff.value
  {
    if cutoff.Some? && exists p :: p in t && t[p].receivedAt >= cutoff.value {
      var p :| p in t && t[p].receivedAt >= cutoff.value;
      assert p in Survivors(t, cutoff);
    }
  }
}
