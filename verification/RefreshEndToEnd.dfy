/**
 A refresh from end to end: the sender's messages, encoded and parsed at the
 negotiated width, played by the receiving speaker between BoRR and EoRR while
 anything may happen with its other peers.
 */
module RefreshEndToEnd {
  import opened BgpTypes
  import opened Propagation
  import opened Speaker
  import opened SpeakerRuns
  import opened PeerSessions
  import opened AsPathCodec
  import opened UpdateCodec
  import O = Outbound

  // -------------------------------------------------------------- grouping keys

  /** The octets a route's attributes encode to, by which a pass groups prefixes. */
  function GroupKey(four: bool): O.Encoding {
    (r: AdvertisedRoute) => EncodeAttributes(AttributesFor(r, four), true)
  }

  /** A route whose path fits the segment and length fields of the wire format. */
  ghost predicate Sendable(r: AdvertisedRoute, four: bool) {
    && Tidy(r.asPath.segments) && |r.clusterList| <= MAX_CLUSTER_LIST_LEN
    && |EncodePath(r.asPath, true)| < 0x1_0000 && |EncodePath(r.asPath, four)| < 0x1_0000
  }

  /** Grouping by encoded octets never mixes two different routes. */
  lemma GroupingIsSound(desired: O.RibOut, four: bool)
    requires forall p :: p in desired ==> Sendable(desired[p], four)
    ensures O.Distinguishes(GroupKey(four), desired)
  {
    forall p, q | p in desired && q in desired && GroupKey(four)(desired[p]) == GroupKey(four)(desired[q])
      ensures desired[p] == desired[q]
    {
      SameOctetsSameRoute(desired[p], desired[q], four);
    }
  }

  lemma SameOctetsSameRoute(r: AdvertisedRoute, q: AdvertisedRoute, four: bool)
    requires Sendable(r, four) && Sendable(q, four)
    requires EncodeAttributes(AttributesFor(r, four), true) == EncodeAttributes(AttributesFor(q, four), true)
    ensures r == q
  {
    EncodingIsInjective(AttributesFor(r, four), AttributesFor(q, four));
  }

  // ------------------------------------------------------------ sender's stretch

  predicate IsUpdate(m: O.Pdu) {
    m.Withdrawal? || m.Announcement?
  }

  function ToUpdate(m: O.Pdu, four: bool): Update
    requires IsUpdate(m)
  {
    match m
    case Withdrawal(ps) => Update(ps, None, [])
    case Announcement(route, ps) => Update([], Some(AttributesFor(route, four)), ps)
  }

  /** The message as the peer parses it. */
  function Heard(m: O.Pdu, four: bool): Update
    requires IsUpdate(m)
  {
    Delivered(ToUpdate(m, four), four)
  }

  lemma WireDelivers(m: O.Pdu, four: bool)
    requires IsUpdate(m) && WellFormedUpdate(ToUpdate(m, four), four)
    requires |EncodeUpdate(ToUpdate(m, four))| <= MAX_MESSAGE_LEN
    ensures ParseMessage(EncodeUpdate(ToUpdate(m, four)), four) == UpdateBody(Ok(Heard(m, four)))
  {
    UpdateRoundTrip(ToUpdate(m, four), four);
  }

  predicate AllUpdates(ms: seq<O.Pdu>) {
    forall i :: 0 <= i < |ms| ==> IsUpdate(ms[i])
  }

  /** Since the last BoRR, only what followed it counts. */
  lemma {:induction false} SinceLastBorr(before: seq<O.Pdu>, ms: seq<O.Pdu>)
    requires AllUpdates(ms)
    ensures O.SinceBorr(before + [O.Borr] + ms) == O.Fold(ms)
    decreases |ms|
  {
    if ms == [] {
      assert before + [O.Borr] + ms == before + [O.Borr];
      O.FoldSnoc(before, O.Borr);
    } else {
      var n := |ms| - 1;
      SinceLastBorr(before, ms[..n]);
      O.FoldSnoc(before + [O.Borr] + ms[..n], ms[n]);
      assert before + [O.Borr] + ms == before + [O.Borr] + ms[..n] + [ms[n]];
    }
  }

  // ---------------------------------------------------------- receiver's stretch

  /** The UPDATEs that arrive from `addr`, in order, End-of-RIB markers aside. */
  function FromPeer(ops: seq<Op>, addr: Address): seq<Update> {
    if ops == [] then []
    else
      var op := ops[|ops| - 1];
      FromPeer(ops[..|ops| - 1], addr)
      + if op.Receive? && op.addr == addr && !IsEndOfRib(op.update) then [op.update] else []
  }

  function HeardAll(ms: seq<O.Pdu>, four: bool): seq<Update>
    requires AllUpdates(ms)
  {
    seq(|ms|, i requires 0 <= i < |ms| => Heard(ms[i], four))
  }

  /** No check, limit or policy stands in the way of the announcement. */
  ghost predicate Welcome(s: Speaker, addr: Address, u: Update)
    requires addr in s.peers
  {
    u.attributes.Some? && u.nlri != [] ==>
      && CheckAttributes(s.me, s.peers[addr].config, u.attributes.value).Usable?
      && u.attributes.value.nextHop != s.peers[addr].config.localAddr
      && forall p :: p in u.nlri ==> s.peers[addr].config.importPolicy(p) == Permitted(None, None)
  }

  ghost predicate AllWelcome(s: Speaker, ops: seq<Op>, addr: Address) {
    forall k :: 0 <= k < |ops| && ops[k].Receive? && ops[k].addr == addr ==>
      addr in Run(s, ops[..k]).peers && Welcome(Run(s, ops[..k]), addr, ops[k].update)
  }

  /** The stored path is the advertised route, as a session of that width carries it. */
  predicate Carries(path: BgpPath, p: Prefix, route: AdvertisedRoute, four: bool) {
    && path.prefix == p
    && path.origin == route.origin && path.nextHop == route.nextHop && path.med == route.med
    && path.asPath == (if four then route.asPath else TwoOctetDelivery(route.asPath))
    && path.localPref == route.localPref.GetOr(DEFAULT_LOCAL_PREF)
    && path.originatorId == route.originatorId && path.clusterList == route.clusterList
  }

  /** Exactly the advertised routes are stored. */
  ghost predicate Mirror(t: Table, rib: O.RibOut, four: bool) {
    t.Keys == rib.Keys && forall p :: p in t ==> Carries(t[p], p, rib[p], four)
  }

  lemma {:induction false} WithdrawalsMirror(t: Table, rib: O.RibOut, ps: seq<Prefix>, four: bool)
    requires Mirror(t, rib, four)
    ensures Mirror(Play(t, Withdrawals(ps)), O.Withdrawn(rib, ps), four)
    decreases |ps|
  {
    var es := Withdrawals(ps);
    if ps != [] {
      var n := |ps| - 1;
      WithdrawalsMirror(t, rib, ps[..n], four);
      assert es[..n] == Withdrawals(ps[..n]);
      assert forall p :: p in ps <==> p in ps[..n] || p == ps[n];
    }
  }

  /** `es` installs the prefixes `ps` with paths that carry `route`. */
  ghost predicate Installs(es: seq<TableEvent>, ps: seq<Prefix>, route: AdvertisedRoute, four: bool) {
    |es| == |ps| && forall i :: 0 <= i < |ps| ==> es[i].Install? && Carries(es[i].path, ps[i], route, four)
  }

  lemma InstallMirrors(t: Table, rib: O.RibOut, e: TableEvent, p: Prefix, route: AdvertisedRoute, four: bool)
    requires Mirror(t, rib, four) && e.Install? && Carries(e.path, p, route, four)
    ensures Mirror(PlayOne(t, e), rib[p := route], four)
  {}

  lemma AnnouncedStep(rib: O.RibOut, route: AdvertisedRoute, ps: seq<Prefix>)
    requires ps != []
    ensures rib + O.Announced(route, ps) == (rib + O.Announced(route, ps[..|ps| - 1]))[ps[|ps| - 1] := route]
  {
    assert forall p :: p in ps <==> p in ps[..|ps| - 1] || p == ps[|ps| - 1];
  }

  lemma {:induction false} InstallsMirror(t: Table, rib: O.RibOut, es: seq<TableEvent>, ps: seq<Prefix>, route: AdvertisedRoute, four: bool)
    requires Mirror(t, rib, four) && Installs(es, ps, route, four)
    ensures Mirror(Play(t, es), rib + O.Announced(route, ps), four)
    decreases |ps|
  {
    if ps != [] {
      var n := |ps| - 1;
      InstallsMirror(t, rib, es[..n], ps[..n], route, four);
      InstallMirrors(Play(t, es[..n]), rib + O.Announced(route, ps[..n]), es[n], ps[n], route, four);
      AnnouncedStep(rib, route, ps);
    }
  }

  /** Below the prefix limit every announced prefix has its event. */
  lemma {:induction false} EveryPrefixHasItsEvent(s: Speaker, addr: Address, attrs: PathAttributes, ps: seq<Prefix>, now: nat)
    requires addr in s.peers && !AnnounceAll(s, addr, attrs, ps, now).1
    ensures Announcements(s, addr, attrs, ps, now) ==
            seq(|ps|, i requires 0 <= i < |ps| => EventFor(s, addr, attrs, ps[i], now))
    decreases |ps|
  {
    if ps != [] {
      EveryPrefixHasItsEvent(s, addr, attrs, ps[..|ps| - 1], now);
    }
  }

  lemma PrefixInstalls(s: Speaker, addr: Address, route: AdvertisedRoute, ps: seq<Prefix>, p: Prefix, now: nat, four: bool)
    requires addr in s.peers && p in ps && Welcome(s, addr, Heard(O.Announcement(route, ps), four))
    ensures var e := EventFor(s, addr, Heard(O.Announcement(route, ps), four).attributes.value, p, now);
            e.Install? && Carries(e.path, p, route, four)
  {}

  /** A welcome announcement plays one event for each of its prefixes, and nothing else. */
  lemma AnnouncementEvents(s: Speaker, addr: Address, u: Update, now: nat)
    requires addr in s.peers && u.withdrawn == [] && u.nlri != [] && u.attributes.Some?
    requires CheckAttributes(s.me, s.peers[addr].config, u.attributes.value).Usable? && ImportUpdate(s, addr, u, now).1.None?
    ensures UpdateEvents(s, addr, u, now) ==
            seq(|u.nlri|, i requires 0 <= i < |u.nlri| => EventFor(s, addr, u.attributes.value, u.nlri[i], now))
  {
    assert WithdrawAll(s, addr, u.withdrawn) == s;
    EveryPrefixHasItsEvent(s, addr, u.attributes.value, u.nlri, now);
    var es := Announcements(s, addr, u.attributes.value, u.nlri, now);
    assert Withdrawals(u.withdrawn) + es == es;
  }

  lemma AnnouncementInstalls(s: Speaker, addr: Address, route: AdvertisedRoute, ps: seq<Prefix>, now: nat, four: bool)
    requires addr in s.peers && ps != []
    requires var u := Heard(O.Announcement(route, ps), four);
             Welcome(s, addr, u) && ImportUpdate(s, addr, u, now).1.None?
    ensures Installs(UpdateEvents(s, addr, Heard(O.Announcement(route, ps), four), now), ps, route, four)
  {
    var u := Heard(O.Announcement(route, ps), four);
    AnnouncementEvents(s, addr, u, now);
    forall i | 0 <= i < |ps|
      ensures var e := EventFor(s, addr, u.attributes.value, ps[i], now); e.Install? && Carries(e.path, ps[i], route, four)
    {
      PrefixInstalls(s, addr, route, ps, ps[i], now, four);
    }
  }

  lemma MessageMirrors(s: Speaker, addr: Address, m: O.Pdu, now: nat, t: Table, rib: O.RibOut, four: bool)
    requires addr in s.peers && IsUpdate(m) && Mirror(t, rib, four)
    requires Welcome(s, addr, Heard(m, four)) && ImportUpdate(s, addr, Heard(m, four), now).1.None?
    ensures Mirror(Play(t, UpdateEvents(s, addr, Heard(m, four), now)), O.FoldOne(rib, m), four)
  {
    var es := UpdateEvents(s, addr, Heard(m, four), now);
    match m
    case Withdrawal(ps) =>
      assert es == Withdrawals(ps);
      WithdrawalsMirror(t, rib, ps, four);
    case Announcement(route, ps) =>
      if ps == [] {
        assert es == [] && O.Announced(route, ps) == map[];
      } else {
        AnnouncementInstalls(s, addr, route, ps, now, four);
        InstallsMirror(t, rib, es, ps, route, four);
      }
  }

  lemma WelcomePrefix(s: Speaker, ops: seq<Op>, addr: Address)
    requires AllWelcome(s, ops, addr) && ops != []
    ensures AllWelcome(s, ops[..|ops| - 1], addr)
  {
    var n := |ops| - 1;
    forall k | 0 <= k < n && ops[..n][k].Receive? && ops[..n][k].addr == addr
      ensures addr in Run(s, ops[..n][..k]).peers && Welcome(Run(s, ops[..n][..k]), addr, ops[..n][k].update)
    {
      assert ops[..n][..k] == ops[..k] && ops[..n][k] == ops[k];
    }
  }

  /** The operation brings an UPDATE of the peer that carries routes. */
  predicate Brings(op: Op, addr: Address) {
    op.Receive? && op.addr == addr && !IsEndOfRib(op.update)
  }

  lemma LastHeard(ops: seq<Op>, addr: Address, ms: seq<O.Pdu>, four: bool)
    requires AllUpdates(ms) && FromPeer(ops, addr) == HeardAll(ms, four) && ops != []
    ensures var n := |ops| - 1;
            if Brings(ops[n], addr) then
              ms != [] && ops[n].update == Heard(ms[|ms| - 1], four) && FromPeer(ops[..n], addr) == HeardAll(ms[..|ms| - 1], four)
            else FromPeer(ops[..n], addr) == HeardAll(ms, four)
  {
    var n := |ops| - 1;
    if Brings(ops[n], addr) {
      var k := |ms| - 1;
      assert HeardAll(ms, four)[k] == ops[n].update;
      assert FromPeer(ops[..n], addr) == HeardAll(ms, four)[..k] == HeardAll(ms[..k], four);
    }
  }

  lemma NothingBrought(s: Speaker, op: Op, addr: Address, es: seq<TableEvent>)
    requires addr in s.peers && (Ordinary(s, op, addr) || Elsewhere(s, op, addr)) && !Brings(op, addr)
    ensures Events(s, op, addr) == [] && es + Events(s, op, addr) == es
  {}

  /** What the receiver accepts builds, from nothing, what the sender's messages add up to. */
  lemma {:induction false} StretchMirrors(s: Speaker, ops: seq<Op>, addr: Address, ms: seq<O.Pdu>, four: bool)
    requires Undisturbed(s, ops, addr) && AllWelcome(s, ops, addr) && AllUpdates(ms)
    requires FromPeer(ops, addr) == HeardAll(ms, four)
    ensures Mirror(Play(map[], Accepted(s, ops, addr)), O.Fold(ms), four)
    decreases |ops|
  {
    if ops == [] {
      assert ms == [];
    } else {
      var n := |ops| - 1;
      var before, op := Run(s, ops[..n]), ops[n];
      UndisturbedPrefix(s, ops, addr);
      WelcomePrefix(s, ops, addr);
      LastHeard(ops, addr, ms, four);
      var es := Accepted(s, ops[..n], addr);
      if Brings(op, addr) {
        var k := |ms| - 1;
        PlayAppend(map[], es, Events(before, op, addr));
        StretchMirrors(s, ops[..n], addr, ms[..k], four);
        MessageMirrors(before, addr, ms[k], op.now, Play(map[], es), O.Fold(ms[..k]), four);
      } else {
        StretchMirrors(s, ops[..n], addr, ms, four);
        NothingBrought(before, op, addr, es);
      }
    }
  }

  // ---------------------------------------------------------------- main result

  /** What was sent between the two markers adds up to all that was advertised. */
  lemma ReplayedAll(wire: seq<O.Pdu>, j: nat, i: nat)
    requires O.RefreshesComplete(wire) && j < i < |wire| && wire[j].Borr? && wire[i].Eorr? && AllUpdates(wire[j + 1..i])
    ensures O.Fold(wire[..i]) == O.Fold(wire[j + 1..i])
  {
    var ms := wire[j + 1..i];
    assert wire[..i] == wire[..j] + [O.Borr] + ms;
    SinceLastBorr(wire[..j], ms);
    assert O.SinceBorr(wire[..i]) == O.Fold(wire[..i]);
  }

  /**
   Whatever the receiver held when the last BoRR before an EoRR arrived, and whatever
   its other peers do meanwhile: if it accepts everything sent in between, then after
   that EoRR its table is exactly what the sender's Adj-RIB-Out was when it sent it.
   */
  lemma RefreshConverges(wire: seq<O.Pdu>, j: nat, i: nat, s: Speaker, ops: seq<Op>, addr: Address, four: bool)
    requires O.RefreshesComplete(wire) && j < i < |wire| && wire[j].Borr? && wire[i].Eorr?
    requires AllUpdates(wire[j + 1..i])
    requires IsUp(s, addr)
    requires var start := Apply(s, Borr(addr));
             && Undisturbed(start, ops, addr) && AllWelcome(start, ops, addr)
             && FromPeer(ops, addr) == HeardAll(wire[j + 1..i], four)
    ensures Mirror(TableOf(Apply(Run(Apply(s, Borr(addr)), ops), Eorr(addr)).adjRibIn, addr), O.Fold(wire[..i]), four)
  {
    ReplayedAll(wire, j, i);
    RefreshIsExact(s, ops, addr);
    StretchMirrors(Apply(s, Borr(addr)), ops, addr, wire[j + 1..i], four);
  }

  /** On a session's wire every EoRR does have such a BoRR before it. */
  lemma {:induction false} EorrClosesBorr(wire: seq<O.Pdu>) returns (j: nat)
    requires O.InReplay(wire)
    ensures j < |wire| && wire[j].Borr? && AllUpdates(wire[j + 1..])
    decreases |wire|
  {
    var n := |wire| - 1;
    if wire[n].Borr? {
      j := n;
    } else {
      j := EorrClosesBorr(wire[..n]);
      assert wire[j + 1..] == wire[..n][j + 1..] + [wire[n]];
    }
  }
}
