/**
 The speaker as the control plane runs it: one object whose tables, peers and dirty
 flag are updated step by step. Every method is proved to do to the whole state what
 the corresponding function of `Speaker` says, so the theorems over runs hold of it.
 */
module Router {
  import opened BgpTypes
  import opened Propagation
  import opened S = Speaker
  import Runs = SpeakerRuns
  import Decision
  import Contents = LocRibContents
  import Effect = ImportEffect

  // ------------------------------------------------------------ decision process

  lemma {:induction false} GatheredAreKeyed(rib: map<Address, Table>, addrs: seq<Address>, prefix: Prefix)
    requires forall a :: a in rib ==> Runs.KeyedTable(a, rib[a])
    ensures forall c :: c in Gather(rib, addrs, prefix) ==> c.prefix == prefix
    decreases |addrs|
  {
    if addrs != [] {
      GatheredAreKeyed(rib, addrs[1..], prefix);
    }
  }

  lemma {:induction false} FreshAreGathered(s: Speaker, ps: seq<BgpPath>)
    ensures forall c :: c in Fresh(s, ps) ==> c in ps
    decreases |ps|
  {
    if ps != [] {
      FreshAreGathered(s, ps[1..]);
    }
  }

  /** The winner for a prefix is a path to that prefix, so filing it under its own prefix is right. */
  lemma WinnerIsForThePrefix(s: Speaker, prefix: Prefix)
    requires Runs.WellKeyed(s)
    ensures var best := Decision.SelectBest(Candidates(s, prefix)); best.Some? ==> best.value.prefix == prefix
  {
    var learned := Gather(s.adjRibIn, Ascending(s.adjRibIn.Keys), prefix);
    GatheredAreKeyed(s.adjRibIn, Ascending(s.adjRibIn.Keys), prefix);
    FreshAreGathered(s, learned);
    Decision.SelectedIsACandidate(Candidates(s, prefix));
  }

  /** The part of the new Loc-RIB for the prefixes in `done`. */
  function DecideOn(s: Speaker, done: set<Prefix>): Table {
    map p | p in done && Decision.SelectBest(Candidates(s, p)).Some? :: Decision.SelectBest(Candidates(s, p)).value
  }

  lemma DecideOnStep(s: Speaker, done: set<Prefix>, p: Prefix)
    ensures var best := Decision.SelectBest(Candidates(s, p));
            best.Some? ==> DecideOn(s, done + {p}) == DecideOn(s, done)[p := best.value]
    ensures var best := Decision.SelectBest(Candidates(s, p));
            best.None? && p !in done ==> DecideOn(s, done + {p}) == DecideOn(s, done)
  {}

  lemma DecideNext(s: Speaker, all: set<Prefix>, todo: set<Prefix>, p: Prefix)
    requires Runs.WellKeyed(s) && p in todo && todo <= all
    ensures var best := Decision.SelectBest(Candidates(s, p));
            DecideOn(s, all - (todo - {p})) ==
              if best.Some? then DecideOn(s, all - todo)[best.value.prefix := best.value] else DecideOn(s, all - todo)
  {
    DecideOnStep(s, all - todo, p);
    WinnerIsForThePrefix(s, p);
    assert all - (todo - {p}) == all - todo + {p};
  }

  lemma DecideOnAll(s: Speaker)
    ensures DecideOn(s, AllPrefixes(s)) == Decide(s)
  {}

  lemma DecidedContents(s: Speaker, t: Table)
    requires Runs.WellKeyed(s) && t == Decide(s)
    ensures forall p :: p in t <==> p in s.originated || exists a :: a in s.adjRibIn && p in s.adjRibIn[a]
    ensures forall p :: Contents.RightEntry(s, p, if p in t then Some(t[p]) else None)
  {
    forall p
      ensures p in t <==> p in s.originated || exists a :: a in s.adjRibIn && p in s.adjRibIn[a]
      ensures Contents.RightEntry(s, p, if p in t then Some(t[p]) else None)
    {
      Contents.DecisionContents(s, p);
    }
  }

  // ---------------------------------------------------------------- sweeping

  lemma {:induction false} WithdrawAllTable(s: Speaker, addr: Address, ps: seq<Prefix>)
    ensures var t := TableOf(s.adjRibIn, addr);
            var gone := set p | p in ps;
            WithdrawAll(s, addr, ps) == if t.Keys * gone == {} then s else SetTable(s, addr, t - gone).(dirty := true)
    decreases |ps|
  {
    if ps != [] {
      var init, last := ps[..|ps| - 1], ps[|ps| - 1];
      WithdrawAllTable(s, addr, init);
      var t := TableOf(s.adjRibIn, addr);
      var before := set p | p in init;
      var gone := set p | p in ps;
      assert gone == before + {last} by {
        assert forall p :: p in ps <==> p in init || p == last;
      }
      SweepOne(s, addr, before, last);
    }
  }

  lemma SweepAll(s: Speaker, addr: Address, done: seq<Prefix>, gone: set<Prefix>)
    requires forall p :: p in done <==> p in gone
    ensures var t := TableOf(s.adjRibIn, addr);
            WithdrawAll(s, addr, done) == if t.Keys * gone == {} then s else SetTable(s, addr, t - gone).(dirty := true)
  {
    WithdrawAllTable(s, addr, done);
    assert (set p | p in done) == gone;
  }

  lemma WithdrawNext(s: Speaker, addr: Address, done: seq<Prefix>, p: Prefix)
    ensures WithdrawAll(s, addr, done + [p]) == RemovePath(WithdrawAll(s, addr, done), addr, p)
  {
    assert (done + [p])[..|done|] == done;
  }

  lemma SweepOne(s: Speaker, addr: Address, before: set<Prefix>, last: Prefix)
    ensures var t := TableOf(s.adjRibIn, addr);
            var s1 := if t.Keys * before == {} then s else SetTable(s, addr, t - before).(dirty := true);
            var gone := before + {last};
            RemovePath(s1, addr, last) == if t.Keys * gone == {} then s else SetTable(s, addr, t - gone).(dirty := true)
  {
    var t := TableOf(s.adjRibIn, addr);
    var gone := before + {last};
    if t.Keys * before == {} {
      Runs.NothingRemoved(t, before);
      assert t - gone == t - {last};
      assert t.Keys * gone == {} <==> last !in t by {
        assert last in t ==> last in t.Keys * gone;
        assert forall p :: p in t.Keys * gone ==> p == last || p in t.Keys * before;
      }
    } else {
      assert t - gone == t - before - {last};
      assert t.Keys * gone != {};
      var s1 := SetTable(s, addr, t - before).(dirty := true);
      assert TableOf(s1.adjRibIn, addr) == t - before;
      if last in t - before {
        SetTwice(s, addr, t - before, t - gone);
      } else {
        assert t - gone == t - before;
      }
    }
  }

  lemma SetTwice(s: Speaker, addr: Address, t: Table, u: Table)
    ensures SetTable(SetTable(s, addr, t), addr, u) == SetTable(s, addr, u)
  {
    assert (s.adjRibIn - {addr}) - {addr} == s.adjRibIn - {addr};
  }

  // ---------------------------------------------------------------- announcing

  ghost function AnnounceStep(s: Speaker, addr: Address, attrs: PathAttributes, prefix: Prefix, now: nat): (r: (Speaker, bool))
    requires addr in s.peers
    ensures addr in r.0.peers
  {
    var e := EventFor(s, addr, attrs, prefix, now);
    var after := ApplyEvent(s, addr, e);
    (after, e.Install? && |TableOf(after.adjRibIn, addr)| > after.peers[addr].config.maxPrefixes)
  }

  lemma AnnounceNext(s: Speaker, addr: Address, attrs: PathAttributes, ps: seq<Prefix>, i: nat, now: nat)
    requires addr in s.peers && i < |ps| && !AnnounceAll(s, addr, attrs, ps[..i], now).1
    ensures AnnounceAll(s, addr, attrs, ps[..i + 1], now) ==
            AnnounceStep(AnnounceAll(s, addr, attrs, ps[..i], now).0, addr, attrs, ps[i], now)
  {
    assert ps[..i + 1][..i] == ps[..i];
  }

  lemma {:induction false} AnnounceRest(s: Speaker, addr: Address, attrs: PathAttributes, ps: seq<Prefix>, i: nat, now: nat)
    requires addr in s.peers && i <= |ps| && (i < |ps| ==> AnnounceAll(s, addr, attrs, ps[..i], now).1)
    ensures AnnounceAll(s, addr, attrs, ps, now) == AnnounceAll(s, addr, attrs, ps[..i], now)
    decreases |ps|
  {
    if i < |ps| {
      assert ps[..|ps| - 1][..i] == ps[..i];
      AnnounceRest(s, addr, attrs, ps[..|ps| - 1], i, now);
    } else {
      assert ps[..i] == ps;
    }
  }

  /** The speaker after the families in `gone` lost their retained paths. */
  ghost function Dropping(s: Speaker, addr: Address, gone: set<Family>): (r: Speaker)
    requires addr in s.peers
    ensures r.peers == s.peers
  {
    if IPV4_UNICAST in gone then PurgeStale(s, addr, IPV4_UNICAST) else s
  }

  lemma DroppingNext(s: Speaker, addr: Address, families: set<Family>, todo: set<Family>, family: Family)
    requires addr in s.peers && family in todo && todo <= families
    ensures Dropping(s, addr, families - (todo - {family})) == PurgeStale(Dropping(s, addr, families - todo), addr, family)
  {
    assert families - (todo - {family}) == families - todo + {family};
  }

  lemma ExpireNext(s: Speaker, addrs: seq<Address>, i: nat, now: nat)
    requires i < |addrs| && forall j :: 0 <= j < |addrs| ==> addrs[j] in s.peers
    ensures var before, addr := ExpireIn(s, addrs[..i], now), addrs[i];
            ExpireIn(s, addrs[..i + 1], now) ==
              if before.peers[addr].grDeadline.Some? && now >= before.peers[addr].grDeadline.value then Flush(before, addr) else before
  {
    assert addrs[..i + 1][..i] == addrs[..i];
  }

  class BgpRouter {
    var grEnabled: bool
    var me: Identity
    var peers: map<Address, Peer>
    var adjRibIn: map<Address, Table>
    var originated: map<Prefix, Address>
    var locRib: Table
    var dirty: bool

    ghost function View(): Speaker
      reads this
    {
      S.Speaker.Speaker(me, grEnabled, peers, adjRibIn, originated, locRib, dirty)
    }

    constructor (me: Identity, grEnabled: bool, peers: map<Address, Peer>)
      ensures View() == S.Speaker.Speaker(me, grEnabled, peers, map[], map[], map[], true)
    {
      this.me, this.grEnabled, this.peers := me, grEnabled, peers;
      adjRibIn, originated, locRib, dirty := map[], map[], map[], true;
    }

    // ---------------------------------------------------------------- Adj-RIB-In

    method RemovePath(addr: Address, prefix: Prefix) returns (removed: Option<BgpPath>)
      modifies this`adjRibIn
      ensures var t := old(TableOf(adjRibIn, addr));
              && removed == (if prefix in t then Some(t[prefix]) else None)
              && adjRibIn == if prefix in t then WithTable(old(adjRibIn), addr, t - {prefix}) else old(adjRibIn)
    {
      removed := None;
      if addr in adjRibIn && prefix in adjRibIn[addr] {
        removed := Some(adjRibIn[addr][prefix]);
        var rest := adjRibIn[addr] - {prefix};
        if rest == map[] {
          adjRibIn := adjRibIn - {addr};
        } else {
          adjRibIn := adjRibIn[addr := rest];
        }
      }
    }

    /** Removes one path and remembers that the Loc-RIB may be out of date. */
    method Drop(addr: Address, prefix: Prefix)
      modifies this`adjRibIn, this`dirty
      ensures View() == S.RemovePath(old(View()), addr, prefix)
    {
      var removed := RemovePath(addr, prefix);
      if removed.Some? {
        dirty := true;
      }
    }

    method InsertPath(addr: Address, path: BgpPath) returns (previous: Option<BgpPath>)
      modifies this`adjRibIn
      ensures var t := old(TableOf(adjRibIn, addr));
              && previous == (if path.prefix in t then Some(t[path.prefix]) else None)
              && adjRibIn == WithTable(old(adjRibIn), addr, t[path.prefix := path])
    {
      var t := if addr in adjRibIn then adjRibIn[addr] else map[];
      previous := if path.prefix in t then Some(t[path.prefix]) else None;
      assert path.prefix in t[path.prefix := path];
      adjRibIn := adjRibIn[addr := t[path.prefix := path]];
    }

    // -------------------------------------------------------------------- import

    /** Applies the withdrawn prefixes of an UPDATE, one after the other. */
    method Withdraw(addr: Address, ps: seq<Prefix>)
      modifies this`adjRibIn, this`dirty
      ensures View() == WithdrawAll(old(View()), addr, ps)
    {
      ghost var s := View();
      for i := 0 to |ps|
        invariant View() == WithdrawAll(s, addr, ps[..i])
      {
        assert ps[..i + 1][..i] == ps[..i];
        Drop(addr, ps[i]);
      }
      assert ps[..|ps|] == ps;
    }

    /** One announced prefix that passed the checks on its attributes. */
    method AnnounceOne(addr: Address, attrs: PathAttributes, prefix: Prefix, now: nat) returns (over: bool)
      requires addr in peers
      modifies this`adjRibIn, this`dirty, this`peers
      ensures (View(), over) == AnnounceStep(old(View()), addr, attrs, prefix, now)
    {
      over := false;
      match ImportPrefix(me, peers[addr].config, peers[addr].remoteRouterId, attrs, prefix, now)
      case Keep =>
      case Remove(p) =>
        Drop(addr, p);
      case Install(path) =>
        var previous := InsertPath(addr, path);
        peers := peers[addr := peers[addr].(refreshStale := peers[addr].refreshStale - {path.prefix})];
        if previous.None? || !previous.value.SameRouteAs(path) {
          dirty := true;
        }
        over := |TableOf(adjRibIn, addr)| > peers[addr].config.maxPrefixes;
    }

    method Announce(addr: Address, attrs: PathAttributes, ps: seq<Prefix>, now: nat) returns (over: bool)
      requires addr in peers
      modifies this`adjRibIn, this`dirty, this`peers
      ensures (View(), over) == AnnounceAll(old(View()), addr, attrs, ps, now)
    {
      ghost var s := View();
      over := false;
      var i := 0;
      while i < |ps| && !over
        invariant 0 <= i <= |ps| && addr in peers
        invariant (View(), over) == AnnounceAll(s, addr, attrs, ps[..i], now)
        decreases |ps| - i
      {
        AnnounceNext(s, addr, attrs, ps, i, now);
        over := AnnounceOne(addr, attrs, ps[i], now);
        i := i + 1;
      }
      AnnounceRest(s, addr, attrs, ps, i, now);
    }

    method ImportUpdate(addr: Address, u: Update, now: nat) returns (note: Option<Notification>)
      requires addr in peers
      modifies this`adjRibIn, this`dirty, this`peers
      ensures (View(), note) == S.ImportUpdate(old(View()), addr, u, now)
      ensures Effect.Imported(old(View()), View(), addr, u, now, note)
    {
      Effect.UpdateEffect(View(), addr, u, now);
      Withdraw(addr, u.withdrawn);
      if u.attributes.None? || u.nlri == [] {
        return None;
      }
      match CheckAttributes(me, peers[addr].config, u.attributes.value)
      case Reset(n) =>
        note := Some(n);
      case Looped =>
        note := None;
      case Usable =>
        var over := Announce(addr, u.attributes.value, u.nlri, now);
        note := if over then Some(Notification(ERR_CEASE, SUB_MAX_PREFIXES)) else None;
    }

    // ------------------------------------------------------------------ decision

    /** Recomputes the Loc-RIB prefix by prefix. */
    method RunDecisionProcess()
      requires Runs.WellKeyed(View())
      modifies this`locRib
      ensures View() == old(View()).(locRib := Decide(old(View())))
      ensures forall p :: p in locRib <==> p in originated || exists a :: a in adjRibIn && p in adjRibIn[a]
      ensures forall p :: Contents.RightEntry(old(View()), p, if p in locRib then Some(locRib[p]) else None)
    {
      ghost var s := View();
      var here := S.Speaker.Speaker(me, grEnabled, peers, adjRibIn, originated, locRib, dirty);
      var all := AllPrefixes(here);
      var todo, newRib: Table := all, map[];
      assert all - todo == {};
      while todo != {}
        invariant todo <= all && newRib == DecideOn(s, all - todo)
        decreases |todo|
      {
        var p :| p in todo;
        DecideNext(s, all, todo, p);
        var best := Decision.SelectBest(Candidates(here, p));
        if best.Some? {
          newRib := newRib[best.value.prefix := best.value];
        }
        todo := todo - {p};
      }
      assert all - todo == all;
      DecideOnAll(s);
      DecidedContents(s, newRib);
      locRib := newRib;
    }

    // ------------------------------------------------- Enhanced Route Refresh

    method BeginEnhancedRefreshInbound(addr: Address)
      requires addr in peers
      modifies this`peers
      ensures View() == BeginRefresh(old(View()), addr)
    {
      var held := TableOf(adjRibIn, addr).Keys;
      peers := peers[addr := peers[addr].(refreshInbound := true, refreshStale := held)];
    }

    /** Removes the prefixes in `gone` from one peer's table. */
    method Sweep(addr: Address, gone: set<Prefix>)
      modifies this`adjRibIn, this`dirty
      ensures var s := old(View());
              var t := TableOf(s.adjRibIn, addr);
              View() == if t.Keys * gone == {} then s else SetTable(s, addr, t - gone).(dirty := true)
    {
      ghost var s := View();
      ghost var done: seq<Prefix> := [];
      var todo := gone;
      while todo != {}
        invariant todo <= gone && forall p :: p in done <==> p in gone - todo
        invariant View() == WithdrawAll(s, addr, done)
        decreases |todo|
      {
        var p :| p in todo;
        WithdrawNext(s, addr, done, p);
        Drop(addr, p);
        done := done + [p];
        todo := todo - {p};
      }
      SweepAll(s, addr, done, gone);
    }

    method CompleteEnhancedRefreshInbound(addr: Address)
      requires addr in peers && Runs.WellKeyed(View())
      modifies this`peers, this`adjRibIn, this`dirty
      ensures View() == EndRefresh(old(View()), addr)
    {
      if !peers[addr].refreshInbound {
        return;
      }
      ghost var s := View();
      var stale := peers[addr].refreshStale;
      peers := peers[addr := peers[addr].(refreshInbound := false, refreshStale := {})];
      Sweep(addr, stale);
      UntouchedTable(s, addr, stale);
    }

    // ------------------------------------------------- graceful restart helper

    method PurgeStaleFamily(addr: Address, family: Family)
      requires addr in peers
      modifies this`adjRibIn, this`dirty
      ensures View() == PurgeStale(old(View()), addr, family)
    {
      if family == IPV4_UNICAST {
        ghost var s := View();
        var cutoff := peers[addr].grCutoff;
        var t := if addr in adjRibIn then adjRibIn[addr] else map[];
        var stale := set p | p in t && (cutoff.None? || t[p].receivedAt < cutoff.value);
        Sweep(addr, stale);
        PurgeIsSweep(t, cutoff, stale);
      }
    }

    method CompleteRestartFamily(addr: Address, family: Family)
      requires addr in peers
      modifies this`peers, this`adjRibIn, this`dirty
      ensures View() == CompleteFamily(old(View()), addr, family)
    {
      if family !in peers[addr].grStale {
        return;
      }
      PurgeStaleFamily(addr, family);
      peers := peers[addr := peers[addr].(grStale := peers[addr].grStale - {family})];
      if peers[addr].grStale == {} {
        peers := peers[addr := peers[addr].(grDeadline := None, grCutoff := None)];
      }
    }

    /** Purges the retained paths of each of `families`. */
    method PurgeFamilies(addr: Address, families: set<Family>)
      requires addr in peers
      modifies this`adjRibIn, this`dirty
      ensures View() == Dropping(old(View()), addr, families)
    {
      ghost var s := View();
      var todo := families;
      assert families - todo == {};
      while todo != {}
        invariant todo <= families && View() == Dropping(s, addr, families - todo)
        decreases |todo|
      {
        var family :| family in todo;
        DroppingNext(s, addr, families, todo, family);
        PurgeStaleFamily(addr, family);
        todo := todo - {family};
      }
      assert families - todo == families;
    }

    method FlushRestart(addr: Address)
      requires addr in peers
      modifies this`peers, this`adjRibIn, this`dirty
      ensures View() == Flush(old(View()), addr)
    {
      PurgeFamilies(addr, peers[addr].grStale);
      peers := peers[addr := EndRetention(peers[addr])];
    }

    /** Drops the retained families the replacement OPEN does not vouch for, and starts the cutoff. */
    method NarrowRestart(addr: Address, kept: set<Family>, now: nat)
      requires addr in peers && kept <= peers[addr].grStale
      modifies this`peers, this`adjRibIn, this`dirty
      ensures View() == Narrow(old(View()), addr, kept, now)
    {
      PurgeFamilies(addr, peers[addr].grStale - kept);
      peers := peers[addr := peers[addr].(grStale := kept, grCutoff := Some(now))];
      if kept == {} {
        peers := peers[addr := EndRetention(peers[addr])];
      }
    }

    method ReconcileRestart(addr: Address, families: set<Family>, gr: Option<GrCapability>, now: nat)
      requires addr in peers
      modifies this`peers, this`adjRibIn, this`dirty
      ensures View() == ReconcileOpen(old(View()), addr, families, gr, now)
    {
      if !peers[addr].Restarting() {
        return;
      }
      if gr.None? || !gr.value.restarting {
        FlushRestart(addr);
      } else {
        NarrowRestart(addr, peers[addr].grStale * Vouched(gr.value, families), now);
      }
    }

    method AcceptOpen(addr: Address, routerId: Address, families: set<Family>, gr: Option<GrCapability>, now: nat)
      requires addr in peers
      modifies this`peers, this`adjRibIn, this`dirty
      ensures View() == OpenAccepted(old(View()), addr, routerId, families, gr, now)
    {
      if peers[addr].state.OpenSent? {
        ReconcileRestart(addr, families, gr, now);
        peers := peers[addr := peers[addr].(state := OpenConfirm, remoteRouterId := Some(routerId),
                                            families := families, peerGr := gr)];
      }
    }

    method ExpireRestarts(now: nat)
      modifies this`peers, this`adjRibIn, this`dirty
      ensures View() == ExpireAll(old(View()), now)
    {
      ghost var s := View();
      AscendingMembers(peers.Keys);
      var addrs := Ascending(peers.Keys);
      for i := 0 to |addrs|
        invariant peers.Keys == s.peers.Keys
        invariant View() == ExpireIn(s, addrs[..i], now)
      {
        ExpireNext(s, addrs, i, now);
        var addr := addrs[i];
        if peers[addr].grDeadline.Some? && now >= peers[addr].grDeadline.value {
          FlushRestart(addr);
        }
      }
      assert addrs[..|addrs|] == addrs;
    }

    method Teardown(addr: Address, why: Reason, now: nat)
      requires addr in peers
      modifies this`peers, this`adjRibIn, this`dirty
      ensures View() == S.Teardown(old(View()), addr, why, now)
    {
      var peer := peers[addr];
      var preserve := Preserved(peer, grEnabled, why);
      var deadline, cutoff := None, None;
      if why.Transport? && peer.Restarting() {
        deadline, cutoff := peer.grDeadline, peer.grCutoff;
      } else if preserve != {} {
        deadline := Some(now + peer.peerGr.value.restartTime * 1000);
      }
      if IPV4_UNICAST !in preserve {
        adjRibIn := adjRibIn - {addr};
      }
      peers := peers[addr := Peer(peer.config, Idle, None, {}, None, false, {}, preserve, deadline, cutoff)];
      dirty := true;
    }

    // --------------------------------------------------------------- configuration

    method SetRouteReflectorClient(addr: Address, on: bool) returns (known: bool)
      modifies this`peers, this`adjRibIn, this`dirty
      requires Runs.WellKeyed(View())
      ensures View() == SetClient(old(View()), addr, on) && known == (addr in old(peers))
    {
      if addr !in peers {
        return false;
      }
      if peers[addr].config.isClient == on {
        return true;
      }
      ghost var s := View();
      peers := peers[addr := peers[addr].(config := peers[addr].config.(isClient := on))];
      if addr in adjRibIn {
        var amended := Amend(adjRibIn[addr], on);
        adjRibIn := adjRibIn[addr := amended];
        assert amended.Keys == TableOf(s.adjRibIn, addr).Keys;
      } else {
        assert adjRibIn - {addr} == adjRibIn;
        assert Reroled(map[], on) == map[];
      }
      dirty := true;
      return true;
    }

    // ------------------------------------------------------------------------ poll

    /** The part of `poll` after the peers have been serviced. */
    method PollTail(now: nat)
      requires Runs.WellKeyed(View())
      modifies this`peers, this`adjRibIn, this`dirty, this`locRib
      ensures View() == S.PollTail(old(View()), now)
    {
      ghost var s := View();
      ExpireRestarts(now);
      AscendingMembers(s.peers.Keys);
      Runs.ExpireFlagged(s, Ascending(s.peers.Keys), now);
      if dirty {
        RunDecisionProcess();
        dirty := false;
      }
    }

    /** An UPDATE on an established session. */
    method HandleUpdate(addr: Address, u: Update, now: nat)
      requires addr in peers
      modifies this`peers, this`adjRibIn, this`dirty
      ensures View() == Runs.HandleUpdate(old(View()), addr, u, now)
    {
      var note := ImportUpdate(addr, u, now);
      if note.Some? {
        Teardown(addr, Protocol, now);
      } else if Runs.IsEndOfRib(u) {
        CompleteRestartFamily(addr, IPV4_UNICAST);
      }
    }

    /** Messages that only an established session can receive. */
    method Message(addr: Address, op: Runs.Op)
      requires Runs.WellKeyed(View()) && addr in peers && peers[addr].state.Established?
      requires (op.Receive? || op.Borr? || op.Eorr? || op.EndOfRib?) && op.addr == addr
      modifies this`peers, this`adjRibIn, this`dirty
      ensures View() == Runs.Apply(old(View()), op)
    {
      match op
      case Receive(_, u, now) => HandleUpdate(addr, u, now);
      case Borr(_) => BeginEnhancedRefreshInbound(addr);
      case Eorr(_) => CompleteEnhancedRefreshInbound(addr);
      case EndOfRib(_, family) => CompleteRestartFamily(addr, family);
    }

    /** Session events and settings of one configured peer. */
    method Session(addr: Address, op: Runs.Op)
      requires addr in peers
      requires (op.SendOpen? || op.Open? || op.Up? || op.Down? || op.Adoption? || op.Set?) && op.addr == addr
      modifies this`peers, this`adjRibIn, this`dirty
      ensures View() == Runs.Apply(old(View()), op)
    {
      match op
      case SendOpen(_) =>
        var state := peers[addr].state;
        if !state.OpenSent? && !state.OpenConfirm? && !state.Established? {
          peers := peers[addr := peers[addr].(state := OpenSent)];
        }
      case Open(_, routerId, families, gr, now) => AcceptOpen(addr, routerId, families, gr, now);
      case Up(_) =>
        if peers[addr].state.OpenConfirm? {
          peers := peers[addr := peers[addr].(state := Established)];
          dirty := true;
        }
      case Down(_, why, now) => Teardown(addr, why, now);
      case Adoption(_) => peers := peers[addr := peers[addr].(state := Active, families := {}, peerGr := None)];
      case Set(_, x) => peers := peers[addr := peers[addr].(config := Adjusted(peers[addr].config, x))];
    }

    method Configure(op: Runs.Op)
      requires Runs.WellKeyed(View()) && (op.SetRole? || op.Network? || op.NoNetwork? || op.ClusterId? || op.Helper?)
      modifies this`peers, this`adjRibIn, this`dirty, this`originated, this`me, this`grEnabled
      ensures View() == Runs.Apply(old(View()), op)
    {
      match op
      case SetRole(addr, on) => var _ := SetRouteReflectorClient(addr, on);
      case Network(prefix, nextHop) => originated, dirty := originated[prefix := nextHop], true;
      case NoNetwork(prefix) =>
        if prefix in originated {
          originated, dirty := originated - {prefix}, true;
        }
      case ClusterId(id) =>
        if me.clusterId != Some(id) {
          me, dirty := me.(clusterId := Some(id)), true;
        }
      case Helper(on) => grEnabled := on;
    }

    /**
     Any one step of a run. The object does what `Apply` says, so every theorem about
     `Run` is a theorem about a router driven by the same steps.
     */
    method Step(op: Runs.Op)
      requires Runs.WellKeyed(View())
      modifies this
      ensures View() == Runs.Apply(old(View()), op) && Runs.WellKeyed(View())
    {
      StepKeepsKeys(View(), op);
      if op.Poll? {
        PollTail(op.now);
      } else if op.SetRole? || op.Network? || op.NoNetwork? || op.ClusterId? || op.Helper? {
        Configure(op);
      } else if op.addr in peers {
        if op.SendOpen? || op.Open? || op.Up? || op.Down? || op.Adoption? || op.Set? {
          Session(op.addr, op);
        } else if peers[op.addr].state.Established? {
          Message(op.addr, op);
        }
      }
    }

    /** What one neighbour should be told, route by route; the Adj-RIB-Out is later compared with it. */
    method ComputeAdjRibOut(addr: Address) returns (out: map<Prefix, AdvertisedRoute>)
      requires addr in peers
      ensures forall p :: p in out <==> p in locRib && ExportRoute(me, peers[addr].config, p, locRib[p]).Some?
      ensures forall p :: p in out ==> Some(out[p]) == ExportRoute(me, peers[addr].config, p, locRib[p])
      ensures forall p :: p in out <==> p in locRib && !Withheld(me, peers[addr].config, p, locRib[p])
      ensures forall p :: p in out ==> RightAdvertisement(me, peers[addr].config, p, locRib[p], out[p])
    {
      out := map[];
      var todo := locRib.Keys;
      while todo != {}
        invariant todo <= locRib.Keys
        invariant forall p :: p in out <==> p in locRib && p !in todo && ExportRoute(me, peers[addr].config, p, locRib[p]).Some?
        invariant forall p :: p in out ==> Some(out[p]) == ExportRoute(me, peers[addr].config, p, locRib[p])
        decreases |todo|
      {
        var p :| p in todo;
        var route := ExportRoute(me, peers[addr].config, p, locRib[p]);
        if route.Some? {
          out := out[p := route.value];
        }
        todo := todo - {p};
      }
      AdvertisedRight(me, peers[addr].config, locRib);
    }
  }

  lemma AdvertisedRight(me: Identity, c: PeerConfig, rib: Table)
    ensures forall p :: p in rib ==> (ExportRoute(me, c, p, rib[p]).None? <==> Withheld(me, c, p, rib[p]))
    ensures forall p :: p in rib && ExportRoute(me, c, p, rib[p]).Some? ==>
              RightAdvertisement(me, c, p, rib[p], ExportRoute(me, c, p, rib[p]).value)
  {
    forall p | p in rib
      ensures ExportRoute(me, c, p, rib[p]).None? <==> Withheld(me, c, p, rib[p])
      ensures ExportRoute(me, c, p, rib[p]).Some? ==>
                RightAdvertisement(me, c, p, rib[p], ExportRoute(me, c, p, rib[p]).value)
    {
      ExportIsRight(me, c, p, rib[p]);
    }
  }

  method Amend(t: Table, isClient: bool) returns (r: Table)
    ensures r == Reroled(t, isClient)
  {
    r := t;
    var todo := t.Keys;
    while todo != {}
      invariant todo <= t.Keys && r.Keys == t.Keys
      invariant forall p :: p in t ==> r[p] == if p in todo then t[p] else t[p].(fromClient := isClient)
      decreases |todo|
    {
      var p :| p in todo;
      r := r[p := r[p].(fromClient := isClient)];
      todo := todo - {p};
    }
  }

  lemma StepKeepsKeys(s: Speaker, op: Runs.Op)
    requires Runs.WellKeyed(s)
    ensures Runs.WellKeyed(Runs.Apply(s, op))
  {
    if op.Poll? {
      AscendingMembers(s.peers.Keys);
      Runs.ExpireFlagged(s, Ascending(s.peers.Keys), op.now);
    } else {
      Runs.OpFlagged(s, op);
    }
  }

  lemma UntouchedTable(s: Speaker, addr: Address, gone: set<Prefix>)
    requires Runs.WellKeyed(s)
    ensures var t := TableOf(s.adjRibIn, addr); t.Keys * gone == {} ==> SetTable(s, addr, t - gone) == s
  {
    var t := TableOf(s.adjRibIn, addr);
    if t.Keys * gone == {} {
      Runs.NothingRemoved(t, gone);
      if addr !in s.adjRibIn {
        assert s.adjRibIn - {addr} == s.adjRibIn;
      }
    }
  }

  lemma PurgeIsSweep(t: Table, cutoff: Option<nat>, stale: set<Prefix>)
    requires stale == set p | p in t && (cutoff.None? || t[p].receivedAt < cutoff.value)
    ensures Survivors(t, cutoff) == t - stale && (Survivors(t, cutoff) != t <==> t.Keys * stale != {})
  {
    assert Survivors(t, cutoff) == t - stale;
    if p :| p in stale {
      assert p in t.Keys * stale && p in t && p !in t - stale;
    } else {
      assert t - stale == t;
    }
  }
}
