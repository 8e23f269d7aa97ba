/**
 What one peer's table holds after a stretch of its session: the messages played
 over the table, whatever happens to other peers meanwhile. From this follow the
 exactness of Enhanced Route Refresh and of the graceful-restart End-of-RIB.
 */
module PeerSessions {
  import opened BgpTypes
  import opened Propagation
  import opened Speaker
  import opened SpeakerRuns

  // ------------------------------------------------------- playing over a table

  function PlayOne(t: Table, e: TableEvent): Table {
    match e
    case Keep => t
    case Remove(p) => t - {p}
    case Install(path) => t[path.prefix := path]
  }

  /** The table after `es`, in order. */
  function Play(t: Table, es: seq<TableEvent>): Table {
    if es == [] then t else PlayOne(Play(t, es[..|es| - 1]), es[|es| - 1])
  }

  lemma {:induction false} PlayAppend(t: Table, es: seq<TableEvent>, fs: seq<TableEvent>)
    ensures Play(t, es + fs) == Play(Play(t, es), fs)
    decreases |fs|
  {
    if fs == [] {
      assert es + fs == es;
    } else {
      var n := |fs| - 1;
      PlayAppend(t, es, fs[..n]);
      assert (es + fs)[..|es + fs| - 1] == es + fs[..n];
    }
  }

  ghost function Installed(es: seq<TableEvent>): set<Prefix> {
    set i | 0 <= i < |es| && es[i].Install? :: es[i].path.prefix
  }

  lemma InstalledStep(es: seq<TableEvent>)
    requires es != []
    ensures var n := |es| - 1;
            Installed(es) == Installed(es[..n]) + if es[n].Install? then {es[n].path.prefix} else {}
  {
    var n := |es| - 1;
    forall p | p in Installed(es) ensures p in Installed(es[..n]) + if es[n].Install? then {es[n].path.prefix} else {} {
      var i :| 0 <= i < |es| && es[i].Install? && es[i].path.prefix == p;
      assert i < n ==> es[..n][i] == es[i];
    }
    forall p | p in Installed(es[..n]) ensures p in Installed(es) {
      var i :| 0 <= i < n && es[..n][i].Install? && es[..n][i].path.prefix == p;
      assert es[i].Install?;
    }
  }

  /** Sweeping what was marked and not re-installed is playing over the unmarked part alone. */
  lemma {:induction false} MarkAndSweep(t: Table, marked: set<Prefix>, es: seq<TableEvent>)
    ensures Play(t, es) - (marked - Installed(es)) == Play(t - marked, es)
    decreases |es|
  {
    if es == [] {
      assert marked - Installed(es) == marked;
    } else {
      var n := |es| - 1;
      MarkAndSweep(t, marked, es[..n]);
      InstalledStep(es);
      SweepStep(Play(t, es[..n]), marked - Installed(es[..n]), es[n]);
      assert marked - Installed(es) ==
             marked - Installed(es[..n]) - if es[n].Install? then {es[n].path.prefix} else {};
    }
  }

  lemma SweepStep(t: Table, marked: set<Prefix>, e: TableEvent)
    ensures PlayOne(t, e) - (marked - if e.Install? then {e.path.prefix} else {}) == PlayOne(t - marked, e)
  {}

  /** Purging by age commutes with playing events that are all recent. */
  lemma {:induction false} PurgeByAge(t: Table, cutoff: nat, es: seq<TableEvent>)
    requires forall i :: 0 <= i < |es| && es[i].Install? ==> es[i].path.receivedAt >= cutoff
    ensures Survivors(Play(t, es), Some(cutoff)) == Play(Survivors(t, Some(cutoff)), es)
    decreases |es|
  {
    if es != [] {
      PurgeByAge(t, cutoff, es[..|es| - 1]);
    }
  }

  function Look(t: Table, p: Prefix): Option<BgpPath> {
    if p in t then Some(t[p]) else None
  }

  lemma LookExtensional(t: Table, u: Table)
    requires forall p :: Look(t, p) == Look(u, p)
    ensures t == u
  {
    forall p ensures (p in t <==> p in u) && (p in t ==> t[p] == u[p]) {
      assert Look(t, p) == Look(u, p);
    }
  }

  predicate Touches(e: TableEvent, p: Prefix) {
    (e.Install? && e.path.prefix == p) || (e.Remove? && e.prefix == p)
  }

  /** `p` is announced or withdrawn somewhere in `es`. */
  ghost predicate Touched(es: seq<TableEvent>, p: Prefix) {
    exists i :: 0 <= i < |es| && Touches(es[i], p)
  }

  lemma TouchedStep(es: seq<TableEvent>, p: Prefix)
    requires es != []
    ensures Touched(es, p) <==> Touched(es[..|es| - 1], p) || Touches(es[|es| - 1], p)
  {
    var n := |es| - 1;
    if Touched(es[..n], p) {
      var i :| 0 <= i < n && Touches(es[..n][i], p);
      assert Touches(es[i], p);
    }
    if Touched(es, p) {
      var i :| 0 <= i < |es| && Touches(es[i], p);
      assert i < n ==> Touches(es[..n][i], p);
    }
  }

  /** Once a prefix is touched, what the table held before no longer matters; until then only that matters. */
  lemma {:induction false} PlayLook(t: Table, u: Table, es: seq<TableEvent>, p: Prefix)
    ensures Touched(es, p) ==> Look(Play(t, es), p) == Look(Play(u, es), p)
    ensures !Touched(es, p) ==> Look(Play(t, es), p) == Look(t, p)
    decreases |es|
  {
    if es != [] {
      PlayLook(t, u, es[..|es| - 1], p);
      TouchedStep(es, p);
    }
  }

  /** Playing over `t` is playing over nothing exactly when every path of `t` is touched. */
  lemma PlayForgetsIff(t: Table, es: seq<TableEvent>)
    ensures Play(t, es) == Play(map[], es) <==> forall p :: p in t ==> Touched(es, p)
  {
    forall p
      ensures Touched(es, p) ==> Look(Play(t, es), p) == Look(Play(map[], es), p)
      ensures !Touched(es, p) ==> Look(Play(t, es), p) == Look(t, p) && Look(Play(map[], es), p) == None
    {
      PlayLook(t, map[], es, p);
      PlayLook(map[], t, es, p);
    }
    if forall p :: p in t ==> Touched(es, p) {
      forall p ensures Look(Play(t, es), p) == Look(Play(map[], es), p) {
        assert p !in t && !Touched(es, p) ==> Look(t, p) == None;
      }
      LookExtensional(Play(t, es), Play(map[], es));
    } else {
      var p :| p in t && !Touched(es, p);
      assert Look(Play(t, es), p).Some? && Look(Play(map[], es), p).None?;
    }
  }

  // -------------------------------------------------- what an UPDATE plays

  function Withdrawals(ps: seq<Prefix>): seq<TableEvent> {
    seq(|ps|, i requires 0 <= i < |ps| => Remove(ps[i]))
  }

  function Announcements(s: Speaker, addr: Address, attrs: PathAttributes, ps: seq<Prefix>, now: nat): seq<TableEvent>
    requires addr in s.peers
  {
    if ps == [] then []
    else
      Announcements(s, addr, attrs, ps[..|ps| - 1], now)
      + if AnnounceAll(s, addr, attrs, ps[..|ps| - 1], now).1 then []
        else [EventFor(s, addr, attrs, ps[|ps| - 1], now)]
  }

  /** The effect of one UPDATE on its peer's table, as a list of events. */
  function UpdateEvents(s: Speaker, addr: Address, u: Update, now: nat): seq<TableEvent>
    requires addr in s.peers
  {
    var s1 := WithdrawAll(s, addr, u.withdrawn);
    Withdrawals(u.withdrawn)
    + if u.attributes.Some? && u.nlri != []
         && CheckAttributes(s.me, s.peers[addr].config, u.attributes.value).Usable?
      then Announcements(s1, addr, u.attributes.value, u.nlri, now) else []
  }

  lemma SetTableLook(s: Speaker, addr: Address, t: Table)
    ensures TableOf(SetTable(s, addr, t).adjRibIn, addr) == t
    ensures forall a :: a != addr ==> TableOf(SetTable(s, addr, t).adjRibIn, a) == TableOf(s.adjRibIn, a)
  {}

  lemma EventPlays(s: Speaker, addr: Address, e: TableEvent)
    requires addr in s.peers
    ensures var r := ApplyEvent(s, addr, e);
            && TableOf(r.adjRibIn, addr) == PlayOne(TableOf(s.adjRibIn, addr), e)
            && addr in r.peers && r.me == s.me
            && r.peers[addr] == s.peers[addr].(refreshStale :=
                 s.peers[addr].refreshStale - if e.Install? then {e.path.prefix} else {})
  {
    var t := TableOf(s.adjRibIn, addr);
    match e
    case Keep =>
    case Remove(p) => SetTableLook(s, addr, t - {p});
    case Install(path) => SetTableLook(s, addr, t[path.prefix := path]);
  }

  lemma {:induction false} WithdrawalsPlay(s: Speaker, addr: Address, ps: seq<Prefix>)
    requires addr in s.peers
    ensures TableOf(WithdrawAll(s, addr, ps).adjRibIn, addr) == Play(TableOf(s.adjRibIn, addr), Withdrawals(ps))
    decreases |ps|
  {
    if ps != [] {
      var n := |ps| - 1;
      WithdrawalsPlay(s, addr, ps[..n]);
      EventPlays(WithdrawAll(s, addr, ps[..n]), addr, Remove(ps[n]));
      assert Withdrawals(ps)[..n] == Withdrawals(ps[..n]);
    }
  }

  /** `r` is `s` with `es` played over the peer's table and its refresh marks. */
  ghost predicate Played(s: Speaker, r: Speaker, addr: Address, es: seq<TableEvent>)
    requires addr in s.peers
  {
    && addr in r.peers
    && TableOf(r.adjRibIn, addr) == Play(TableOf(s.adjRibIn, addr), es)
    && r.peers[addr] == s.peers[addr].(refreshStale := s.peers[addr].refreshStale - Installed(es))
  }

  lemma PlayedThen(s: Speaker, r: Speaker, addr: Address, es: seq<TableEvent>, e: TableEvent)
    requires addr in s.peers && Played(s, r, addr, es)
    ensures Played(s, ApplyEvent(r, addr, e), addr, es + [e])
  {
    EventPlays(r, addr, e);
    assert (es + [e])[..|es|] == es;
    InstalledStep(es + [e]);
  }

  lemma {:induction false} AnnouncementsPlay(s: Speaker, addr: Address, attrs: PathAttributes, ps: seq<Prefix>, now: nat)
    requires addr in s.peers
    ensures Played(s, AnnounceAll(s, addr, attrs, ps, now).0, addr, Announcements(s, addr, attrs, ps, now))
    decreases |ps|
  {
    if ps == [] {
      assert Installed([]) == {};
    } else {
      var n := |ps| - 1;
      AnnouncementsPlay(s, addr, attrs, ps[..n], now);
      var (before, over) := AnnounceAll(s, addr, attrs, ps[..n], now);
      var es := Announcements(s, addr, attrs, ps[..n], now);
      if over {
        assert es + [] == es;
      } else {
        PlayedThen(s, before, addr, es, EventFor(s, addr, attrs, ps[n], now));
      }
    }
  }

  lemma InstalledAppend(es: seq<TableEvent>, fs: seq<TableEvent>)
    ensures Installed(es + fs) == Installed(es) + Installed(fs)
  {
    forall p | p in Installed(es) + Installed(fs) ensures p in Installed(es + fs) {
      if p in Installed(es) {
        var i :| 0 <= i < |es| && es[i].Install? && es[i].path.prefix == p;
        assert (es + fs)[i] == es[i];
      } else {
        var i :| 0 <= i < |fs| && fs[i].Install? && fs[i].path.prefix == p;
        assert (es + fs)[|es| + i] == fs[i];
      }
    }
  }

  lemma PlayedTransitive(s: Speaker, r: Speaker, q: Speaker, addr: Address, es: seq<TableEvent>, fs: seq<TableEvent>)
    requires addr in s.peers && Played(s, r, addr, es) && Played(r, q, addr, fs)
    ensures Played(s, q, addr, es + fs)
  {
    PlayAppend(TableOf(s.adjRibIn, addr), es, fs);
    InstalledAppend(es, fs);
  }

  lemma WithdrawnPlayed(s: Speaker, addr: Address, ps: seq<Prefix>)
    requires addr in s.peers
    ensures Played(s, WithdrawAll(s, addr, ps), addr, Withdrawals(ps))
  {
    WithdrawalsPlay(s, addr, ps);
    assert Installed(Withdrawals(ps)) == {};
  }

  lemma UpdatePlays(s: Speaker, addr: Address, u: Update, now: nat)
    requires addr in s.peers
    ensures Played(s, ImportUpdate(s, addr, u, now).0, addr, UpdateEvents(s, addr, u, now))
  {
    var s1 := WithdrawAll(s, addr, u.withdrawn);
    var es := Withdrawals(u.withdrawn);
    WithdrawnPlayed(s, addr, u.withdrawn);
    if u.attributes.Some? && u.nlri != []
       && CheckAttributes(s.me, s.peers[addr].config, u.attributes.value).Usable? {
      var (s2, _) := AnnounceAll(s1, addr, u.attributes.value, u.nlri, now);
      var fs := Announcements(s1, addr, u.attributes.value, u.nlri, now);
      AnnouncementsPlay(s1, addr, u.attributes.value, u.nlri, now);
      PlayedTransitive(s, s1, s2, addr, es, fs);
      assert ImportUpdate(s, addr, u, now).0 == s2 && UpdateEvents(s, addr, u, now) == es + fs;
    } else {
      assert es + [] == es;
      assert ImportUpdate(s, addr, u, now).0 == s1 && UpdateEvents(s, addr, u, now) == es;
    }
  }

  /**
   An announcement refused as a loop is no withdrawal: an earlier path for the prefix
   stays, and stays marked if a refresh is running.
   */
  lemma LoopLeavesEarlierPath(s: Speaker, addr: Address, u: Update, now: nat, p: Prefix)
    requires addr in s.peers && u.attributes.Some? && p in TableOf(s.adjRibIn, addr) && p !in u.withdrawn
    requires CheckAttributes(s.me, s.peers[addr].config, u.attributes.value).Looped?
    ensures var r := ImportUpdate(s, addr, u, now);
            && r.1.None? && p in TableOf(r.0.adjRibIn, addr)
            && TableOf(r.0.adjRibIn, addr)[p] == TableOf(s.adjRibIn, addr)[p] && r.0.peers == s.peers
  {
    WithdrawalsPlay(s, addr, u.withdrawn);
    NotWithdrawn(TableOf(s.adjRibIn, addr), u.withdrawn, p);
  }

  lemma {:induction false} NotWithdrawn(t: Table, ps: seq<Prefix>, p: Prefix)
    requires p !in ps
    ensures Look(Play(t, Withdrawals(ps)), p) == Look(t, p)
    decreases |ps|
  {
    if ps != [] {
      var n := |ps| - 1;
      NotWithdrawn(t, ps[..n], p);
      assert Withdrawals(ps)[..n] == Withdrawals(ps[..n]);
    }
  }

  // ------------------------------------------- other peers leave this one alone

  ghost predicate Framed(s: Speaker, r: Speaker, addr: Address) {
    && addr in s.peers && addr in r.peers && r.peers[addr] == s.peers[addr]
    && TableOf(r.adjRibIn, addr) == TableOf(s.adjRibIn, addr)
  }

  lemma EventFrame(s: Speaker, other: Address, e: TableEvent, addr: Address)
    requires addr in s.peers && other in s.peers && other != addr
    ensures Framed(s, ApplyEvent(s, other, e), addr)
  {}

  lemma {:induction false} WithdrawFrame(s: Speaker, other: Address, ps: seq<Prefix>, addr: Address)
    requires addr in s.peers && other in s.peers && other != addr
    ensures Framed(s, WithdrawAll(s, other, ps), addr)
    decreases |ps|
  {
    if ps != [] {
      var n := |ps| - 1;
      WithdrawFrame(s, other, ps[..n], addr);
      EventFrame(WithdrawAll(s, other, ps[..n]), other, Remove(ps[n]), addr);
    }
  }

  lemma {:induction false} AnnounceFrame(s: Speaker, other: Address, attrs: PathAttributes, ps: seq<Prefix>, now: nat, addr: Address)
    requires addr in s.peers && other in s.peers && other != addr
    ensures Framed(s, AnnounceAll(s, other, attrs, ps, now).0, addr)
    decreases |ps|
  {
    if ps != [] {
      var n := |ps| - 1;
      AnnounceFrame(s, other, attrs, ps[..n], now, addr);
      var before := AnnounceAll(s, other, attrs, ps[..n], now).0;
      EventFrame(before, other, EventFor(before, other, attrs, ps[n], now), addr);
    }
  }

  lemma ImportFrame(s: Speaker, other: Address, u: Update, now: nat, addr: Address)
    requires addr in s.peers && other in s.peers && other != addr
    ensures var r := ImportUpdate(s, other, u, now).0; Framed(s, r, addr) && other in r.peers
  {
    var s1 := WithdrawAll(s, other, u.withdrawn);
    WithdrawFrame(s, other, u.withdrawn, addr);
    if u.attributes.Some? {
      AnnounceFrame(s1, other, u.attributes.value, u.nlri, now, addr);
    }
  }

  lemma PurgeFrame(s: Speaker, other: Address, family: Family, addr: Address)
    requires addr in s.peers && other in s.peers && other != addr
    ensures var r := PurgeStale(s, other, family); Framed(s, r, addr) && other in r.peers
  {}

  lemma CompleteFrame(s: Speaker, other: Address, family: Family, addr: Address)
    requires addr in s.peers && other in s.peers && other != addr
    ensures Framed(s, CompleteFamily(s, other, family), addr)
  {
    PurgeFrame(s, other, family, addr);
  }

  lemma TeardownFrame(s: Speaker, other: Address, why: Reason, now: nat, addr: Address)
    requires addr in s.peers && other in s.peers && other != addr
    ensures Framed(s, Teardown(s, other, why, now), addr)
  {}

  lemma FlushFrame(s: Speaker, other: Address, addr: Address)
    requires addr in s.peers && other in s.peers && other != addr
    ensures var r := Flush(s, other); Framed(s, r, addr) && other in r.peers
  {
    PurgeFrame(s, other, IPV4_UNICAST, addr);
  }

  lemma NarrowFrame(s: Speaker, other: Address, kept: set<Family>, now: nat, addr: Address)
    requires addr in s.peers && other in s.peers && other != addr
    ensures var r := Narrow(s, other, kept, now); Framed(s, r, addr) && other in r.peers
  {
    PurgeFrame(s, other, IPV4_UNICAST, addr);
  }

  lemma HandleFrame(s: Speaker, other: Address, u: Update, now: nat, addr: Address)
    requires addr in s.peers && other in s.peers && other != addr
    ensures Framed(s, HandleUpdate(s, other, u, now), addr)
  {
    ImportFrame(s, other, u, now, addr);
    var s1 := ImportUpdate(s, other, u, now).0;
    TeardownFrame(s1, other, Protocol, now, addr);
    CompleteFrame(s1, other, IPV4_UNICAST, addr);
  }

  lemma OpenFrame(s: Speaker, other: Address, routerId: Address, families: set<Family>, gr: Option<GrCapability>,
                  now: nat, addr: Address)
    requires addr in s.peers && other in s.peers && other != addr
    ensures Framed(s, OpenAccepted(s, other, routerId, families, gr, now), addr)
  {
    FlushFrame(s, other, addr);
    if gr.Some? {
      NarrowFrame(s, other, s.peers[other].grStale * Vouched(gr.value, families), now, addr);
    }
    assert Framed(s, ReconcileOpen(s, other, families, gr, now), addr);
  }

  predicate Expired(p: Peer, now: nat) {
    p.grDeadline.Some? && now >= p.grDeadline.value
  }

  lemma {:induction false} ExpireFrame(s: Speaker, addrs: seq<Address>, now: nat, addr: Address)
    requires addr in s.peers && forall i :: 0 <= i < |addrs| ==> addrs[i] in s.peers
    requires !Expired(s.peers[addr], now)
    ensures Framed(s, ExpireIn(s, addrs, now), addr)
    decreases |addrs|
  {
    if addrs != [] {
      var n := |addrs| - 1;
      ExpireFrame(s, addrs[..n], now, addr);
      if addrs[n] != addr { FlushFrame(ExpireIn(s, addrs[..n], now), addrs[n], addr); }
    }
  }

  lemma PollFrame(s: Speaker, now: nat, addr: Address)
    requires addr in s.peers && !Expired(s.peers[addr], now)
    ensures Framed(s, PollTail(s, now), addr)
  {
    AscendingMembers(s.peers.Keys);
    ExpireFrame(s, Ascending(s.peers.Keys), now, addr);
  }

  lemma RoleFrame(s: Speaker, other: Address, on: bool, addr: Address)
    requires addr in s.peers && other != addr
    ensures Framed(s, SetClient(s, other, on), addr)
  {}

  lemma EndRefreshFrame(s: Speaker, other: Address, addr: Address)
    requires addr in s.peers && other in s.peers && other != addr
    ensures Framed(s, EndRefresh(s, other), addr)
  {}

  /** The operation concerns another peer, the local configuration, or a poll before this peer's deadline. */
  predicate Elsewhere(s: Speaker, op: Op, addr: Address)
    requires addr in s.peers
  {
    match op
    case Network(_, _) => true
    case NoNetwork(_) => true
    case ClusterId(_) => true
    case Helper(_) => true
    case Poll(now) => !Expired(s.peers[addr], now)
    case _ => op.addr != addr
  }

  lemma SessionFrame(s: Speaker, op: Op, addr: Address)
    requires addr in s.peers && (op.Open? || op.Down? || op.Poll? || op.SetRole?) && Elsewhere(s, op, addr)
    ensures Framed(s, Apply(s, op), addr)
  {
    match op
    case Open(a, routerId, families, gr, now) => if a in s.peers { OpenFrame(s, a, routerId, families, gr, now, addr); }
    case Down(a, why, now) => if a in s.peers { TeardownFrame(s, a, why, now, addr); }
    case Poll(now) => PollFrame(s, now, addr);
    case SetRole(a, isClient) => RoleFrame(s, a, isClient, addr);
  }

  lemma MessageFrame(s: Speaker, op: Op, addr: Address)
    requires addr in s.peers && (op.Receive? || op.EndOfRib? || op.Eorr?) && Elsewhere(s, op, addr)
    ensures Framed(s, Apply(s, op), addr)
  {
    match op
    case Receive(a, u, now) => if a in s.peers { HandleFrame(s, a, u, now, addr); }
    case EndOfRib(a, family) => if a in s.peers { CompleteFrame(s, a, family, addr); }
    case Eorr(a) => if a in s.peers { EndRefreshFrame(s, a, addr); }
  }

  lemma ElsewhereFrame(s: Speaker, op: Op, addr: Address)
    requires addr in s.peers && Elsewhere(s, op, addr)
    ensures Framed(s, Apply(s, op), addr)
  {
    if op.Open? || op.Down? || op.Poll? || op.SetRole? {
      SessionFrame(s, op, addr);
    } else if op.Receive? || op.EndOfRib? || op.Eorr? {
      MessageFrame(s, op, addr);
    } else if op.Network? || op.NoNetwork? || op.ClusterId? || op.Helper? {
      ConfigurationFrame(s, op, addr);
    } else {
      ProgressFrame(s, op, addr);
    }
  }

  lemma ConfigurationFrame(s: Speaker, op: Op, addr: Address)
    requires addr in s.peers && (op.Network? || op.NoNetwork? || op.ClusterId? || op.Helper?)
    ensures Framed(s, Apply(s, op), addr)
  {}

  lemma ProgressFrame(s: Speaker, op: Op, addr: Address)
    requires addr in s.peers && (op.Borr? || op.SendOpen? || op.Up? || op.Adoption? || op.Set?) && op.addr != addr
    ensures Framed(s, Apply(s, op), addr)
  {}

  // ------------------------------------------------------ stretches of a session

  /** An UPDATE from this peer that neither resets the session nor ends a retention. */
  predicate Ordinary(s: Speaker, op: Op, addr: Address)
    requires addr in s.peers
  {
    && op.Receive? && op.addr == addr && IsUp(s, addr)
    && ImportUpdate(s, addr, op.update, op.now).1.None?
    && (IsEndOfRib(op.update) ==> IPV4_UNICAST !in s.peers[addr].grStale)
  }

  function Events(s: Speaker, op: Op, addr: Address): seq<TableEvent>
    requires addr in s.peers
  {
    if op.Receive? && op.addr == addr then UpdateEvents(s, addr, op.update, op.now) else []
  }

  /** Every step is an ordinary UPDATE from this peer or happens elsewhere. */
  ghost predicate Undisturbed(s: Speaker, ops: seq<Op>, addr: Address) {
    forall k :: 0 <= k < |ops| ==>
      var before := Run(s, ops[..k]);
      addr in before.peers && (Ordinary(before, ops[k], addr) || Elsewhere(before, ops[k], addr))
  }

  /** Everything this peer announced and withdrew during the stretch, as accepted. */
  ghost function Accepted(s: Speaker, ops: seq<Op>, addr: Address): seq<TableEvent>
    requires Undisturbed(s, ops, addr)
  {
    if ops == [] then []
    else
      var n := |ops| - 1;
      UndisturbedPrefix(s, ops, addr);
      Accepted(s, ops[..n], addr) + Events(Run(s, ops[..n]), ops[n], addr)
  }

  lemma UndisturbedPrefix(s: Speaker, ops: seq<Op>, addr: Address)
    requires Undisturbed(s, ops, addr) && ops != []
    ensures Undisturbed(s, ops[..|ops| - 1], addr)
  {
    var n := |ops| - 1;
    forall k | 0 <= k < n
      ensures var before := Run(s, ops[..n][..k]);
              addr in before.peers && (Ordinary(before, ops[..n][k], addr) || Elsewhere(before, ops[..n][k], addr))
    {
      assert ops[..n][..k] == ops[..k] && ops[..n][k] == ops[k];
    }
  }

  lemma StepPlays(s: Speaker, op: Op, addr: Address)
    requires addr in s.peers && (Ordinary(s, op, addr) || Elsewhere(s, op, addr))
    ensures Played(s, Apply(s, op), addr, Events(s, op, addr))
  {
    if Elsewhere(s, op, addr) {
      ElsewhereFrame(s, op, addr);
      assert Installed([]) == {};
    } else {
      UpdatePlays(s, addr, op.update, op.now);
    }
  }

  lemma {:induction false} StretchPlays(s: Speaker, ops: seq<Op>, addr: Address)
    requires addr in s.peers && Undisturbed(s, ops, addr)
    ensures Played(s, Run(s, ops), addr, Accepted(s, ops, addr))
    decreases |ops|
  {
    if ops == [] {
      assert Installed([]) == {};
    } else {
      var n := |ops| - 1;
      UndisturbedPrefix(s, ops, addr);
      StretchPlays(s, ops[..n], addr);
      var before := Run(s, ops[..n]);
      StepPlays(before, ops[n], addr);
      PlayedTransitive(s, before, Apply(before, ops[n]), addr, Accepted(s, ops[..n], addr), Events(before, ops[n], addr));
    }
  }

  // ------------------------------------------------------------- main results

  /**
   Enhanced Route Refresh is exact: whatever the table held when BoRR arrived,
   after EoRR it is what the updates accepted in between build from nothing.
   A second BoRR restarts the stretch.
   */
  lemma RefreshIsExact(s: Speaker, ops: seq<Op>, addr: Address)
    requires IsUp(s, addr)
    requires Undisturbed(Apply(s, Borr(addr)), ops, addr)
    ensures var start := Apply(s, Borr(addr));
            TableOf(Apply(Run(start, ops), Eorr(addr)).adjRibIn, addr) == Play(map[], Accepted(start, ops, addr))
  {
    var start := Apply(s, Borr(addr));
    var es := Accepted(start, ops, addr);
    var t := TableOf(start.adjRibIn, addr);
    StretchPlays(start, ops, addr);
    MarkAndSweep(t, t.Keys, es);
    assert t - t.Keys == map[];
    var last := Run(start, ops);
    SetTableLook(last, addr, TableOf(last.adjRibIn, addr) - last.peers[addr].refreshStale);
  }

  /** The clock shows at least `time` at every UPDATE. */
  ghost predicate ClockFrom(ops: seq<Op>, time: nat) {
    forall k :: 0 <= k < |ops| && ops[k].Receive? ==> ops[k].now >= time
  }

  ghost predicate NotBefore(es: seq<TableEvent>, time: nat) {
    forall i :: 0 <= i < |es| && es[i].Install? ==> es[i].path.receivedAt >= time
  }

  lemma {:induction false} AnnouncementsNotBefore(s: Speaker, addr: Address, attrs: PathAttributes, ps: seq<Prefix>, now: nat, time: nat)
    requires addr in s.peers && now >= time
    ensures NotBefore(Announcements(s, addr, attrs, ps, now), time)
    decreases |ps|
  {
    if ps != [] { AnnouncementsNotBefore(s, addr, attrs, ps[..|ps| - 1], now, time); }
  }

  lemma EventsNotBefore(s: Speaker, op: Op, addr: Address, time: nat)
    requires addr in s.peers && (op.Receive? ==> op.now >= time)
    ensures NotBefore(Events(s, op, addr), time)
  {
    if op.Receive? && op.addr == addr && op.update.attributes.Some? {
      AnnouncementsNotBefore(WithdrawAll(s, addr, op.update.withdrawn), addr,
                             op.update.attributes.value, op.update.nlri, op.now, time);
    }
  }

  /** Accepted paths carry the time of the UPDATE that brought them. */
  lemma {:induction false} AcceptedNotBefore(s: Speaker, ops: seq<Op>, addr: Address, time: nat)
    requires Undisturbed(s, ops, addr) && ClockFrom(ops, time)
    ensures NotBefore(Accepted(s, ops, addr), time)
    decreases |ops|
  {
    if ops != [] {
      var n := |ops| - 1;
      UndisturbedPrefix(s, ops, addr);
      AcceptedNotBefore(s, ops[..n], addr, time);
      var before := Run(s, ops[..n]);
      EventsNotBefore(before, ops[n], addr, time);
      assert NotBefore(Accepted(s, ops[..n], addr) + Events(before, ops[n], addr), time);
    }
  }

  lemma EndOfRibSurvivors(s: Speaker, ops: seq<Op>, addr: Address, cutoff: nat)
    requires addr in s.peers && IPV4_UNICAST in s.peers[addr].grStale && s.peers[addr].grCutoff == Some(cutoff)
    requires Undisturbed(s, ops, addr) && IsUp(Run(s, ops), addr)
    ensures TableOf(Apply(Run(s, ops), EndOfRib(addr, IPV4_UNICAST)).adjRibIn, addr) ==
            Survivors(Play(TableOf(s.adjRibIn, addr), Accepted(s, ops, addr)), Some(cutoff))
  {
    var last := Run(s, ops);
    StretchPlays(s, ops, addr);
    SetTableLook(last, addr, Survivors(TableOf(last.adjRibIn, addr), Some(cutoff)));
  }

  /**
   End-of-RIB after a graceful restart leaves exactly the paths accepted since the
   replacement OPEN if and only if every older path that carries the OPEN's own
   timestamp (or a later one) was announced or withdrawn again.
   */
  lemma EndOfRibIsExactIff(s: Speaker, ops: seq<Op>, addr: Address, cutoff: nat)
    requires addr in s.peers && IPV4_UNICAST in s.peers[addr].grStale && s.peers[addr].grCutoff == Some(cutoff)
    requires Undisturbed(s, ops, addr) && IsUp(Run(s, ops), addr)
    requires ClockFrom(ops, cutoff)
    ensures TableOf(Apply(Run(s, ops), EndOfRib(addr, IPV4_UNICAST)).adjRibIn, addr) == Play(map[], Accepted(s, ops, addr))
            <==>
            forall p :: p in TableOf(s.adjRibIn, addr) && TableOf(s.adjRibIn, addr)[p].receivedAt >= cutoff ==>
              Touched(Accepted(s, ops, addr), p)
  {
    var es := Accepted(s, ops, addr);
    var t := TableOf(s.adjRibIn, addr);
    EndOfRibSurvivors(s, ops, addr, cutoff);
    AcceptedNotBefore(s, ops, addr, cutoff);
    PurgeByAge(t, cutoff, es);
    PlayForgetsIff(Survivors(t, Some(cutoff)), es);
    assert forall p :: p in Survivors(t, Some(cutoff)) <==> p in t && t[p].receivedAt >= cutoff;
  }

  /** With a clock that advanced between the last retained path and the OPEN, it is always exact. */
  lemma EndOfRibIsExact(s: Speaker, ops: seq<Op>, addr: Address, cutoff: nat)
    requires addr in s.peers && IPV4_UNICAST in s.peers[addr].grStale && s.peers[addr].grCutoff == Some(cutoff)
    requires forall p :: p in TableOf(s.adjRibIn, addr) ==> TableOf(s.adjRibIn, addr)[p].receivedAt < cutoff
    requires Undisturbed(s, ops, addr) && IsUp(Run(s, ops), addr)
    requires ClockFrom(ops, cutoff)
    ensures TableOf(Apply(Run(s, ops), EndOfRib(addr, IPV4_UNICAST)).adjRibIn, addr) == Play(map[], Accepted(s, ops, addr))
  {
    EndOfRibIsExactIff(s, ops, addr, cutoff);
  }
}
