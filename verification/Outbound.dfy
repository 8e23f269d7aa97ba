/**
 The sending side of one established IPv4-unicast session: what has been written to
 the peer, what the Adj-RIB-Out claims was written, and how an (Enhanced) Route
 Refresh is served while writes may fail at any point.
 */
module Outbound {
  import opened BgpTypes
  import opened Propagation

  type RibOut = map<Prefix, AdvertisedRoute>

  datatype Pdu =
    | Withdrawal(prefixes: seq<Prefix>)
    | Announcement(route: AdvertisedRoute, prefixes: seq<Prefix>)
    | Borr
    | Eorr

  datatype Phase = NeedBorr | Replaying | NeedEorr

  // ------------------------------------------------------- what the wire says

  function Announced(route: AdvertisedRoute, ps: seq<Prefix>): RibOut {
    map p | p in ps :: route
  }

  function Withdrawn(rib: RibOut, ps: seq<Prefix>): RibOut {
    map p | p in rib && p !in ps :: rib[p]
  }

  function FoldOne(rib: RibOut, m: Pdu): RibOut {
    match m
    case Withdrawal(ps) => Withdrawn(rib, ps)
    case Announcement(route, ps) => rib + Announced(route, ps)
    case Borr => rib
    case Eorr => rib
  }

  /** What a peer that held `rib` and processes every message holds in the end. */
  function Hear(rib: RibOut, ms: seq<Pdu>): RibOut {
    if ms == [] then rib else FoldOne(Hear(rib, ms[..|ms| - 1]), ms[|ms| - 1])
  }

  /** The same for a peer that starts with nothing. */
  function Fold(wire: seq<Pdu>): RibOut {
    Hear(map[], wire)
  }

  /** The same, counting only what follows the last BoRR. */
  function SinceBorr(wire: seq<Pdu>): RibOut {
    if wire == [] then map[]
    else
      var m := wire[|wire| - 1];
      if m.Borr? then map[] else FoldOne(SinceBorr(wire[..|wire| - 1]), m)
  }

  /** The last refresh marker sent is a BoRR. */
  predicate InReplay(wire: seq<Pdu>) {
    if wire == [] then false
    else
      var m := wire[|wire| - 1];
      m.Borr? || (!m.Eorr? && InReplay(wire[..|wire| - 1]))
  }

  predicate Submap(a: RibOut, b: RibOut) {
    forall p :: p in a ==> p in b && b[p] == a[p]
  }

  /** Every EoRR closes a BoRR and was sent with the whole Adj-RIB-Out replayed since. */
  ghost predicate RefreshesComplete(wire: seq<Pdu>) {
    forall i :: 0 <= i < |wire| && wire[i].Eorr? ==>
      InReplay(wire[..i]) && SinceBorr(wire[..i]) == Fold(wire[..i])
  }

  lemma FoldSnoc(wire: seq<Pdu>, m: Pdu)
    ensures Fold(wire + [m]) == FoldOne(Fold(wire), m)
    ensures SinceBorr(wire + [m]) == if m.Borr? then map[] else FoldOne(SinceBorr(wire), m)
    ensures InReplay(wire + [m]) == (m.Borr? || (!m.Eorr? && InReplay(wire)))
  {
    assert (wire + [m])[..|wire|] == wire;
  }

  lemma FoldKeepsSubmap(a: RibOut, b: RibOut, m: Pdu)
    requires Submap(a, b)
    ensures Submap(FoldOne(a, m), FoldOne(b, m))
  {}

  lemma CompleteSnoc(wire: seq<Pdu>, m: Pdu)
    requires RefreshesComplete(wire) && (m.Eorr? ==> InReplay(wire) && SinceBorr(wire) == Fold(wire))
    ensures RefreshesComplete(wire + [m])
  {
    forall i | 0 <= i < |wire + [m]| && (wire + [m])[i].Eorr?
      ensures InReplay((wire + [m])[..i]) && SinceBorr((wire + [m])[..i]) == Fold((wire + [m])[..i])
    {
      if i < |wire| {
        assert (wire + [m])[..i] == wire[..i];
      } else {
        assert (wire + [m])[..i] == wire;
      }
    }
  }

  // ------------------------------------------------------------ grouping keys

  /** The octets a route's attributes encode to on this session. */
  type Encoding = AdvertisedRoute -> seq<U8>

  datatype Group = Group(route: AdvertisedRoute, prefixes: seq<Prefix>)

  /** Which routes a pass has to send: all of them in a refresh, otherwise the changed ones. */
  predicate Due(rib: RibOut, desired: RibOut, force: bool, p: Prefix)
    requires p in desired
  {
    force || p !in rib || rib[p] != desired[p]
  }

  /** Routes of `desired` that encode alike are alike. */
  ghost predicate Distinguishes(key: Encoding, desired: RibOut) {
    forall p, q :: p in desired && q in desired && key(desired[p]) == key(desired[q]) ==> desired[p] == desired[q]
  }

  /** A group holds due prefixes whose routes encode to its key, and the route of one of them. */
  ghost predicate GroupOk(g: Group, k: seq<U8>, desired: RibOut, rib: RibOut, force: bool, key: Encoding) {
    && g.prefixes != [] && (forall p :: p in g.prefixes ==> p in desired && Due(rib, desired, force, p) && key(desired[p]) == k)
    && (exists q :: q in desired && desired[q] == g.route && key(desired[q]) == k)
  }

  /** Every due prefix of `done` is in the group of its key. */
  ghost predicate Grouped(groups: map<seq<U8>, Group>, desired: RibOut, rib: RibOut, force: bool, key: Encoding, done: set<Prefix>) {
    && (forall k :: k in groups ==> GroupOk(groups[k], k, desired, rib, force, key))
    && (forall p :: p in done && p in desired && Due(rib, desired, force, p) ==>
          key(desired[p]) in groups && p in groups[key(desired[p])].prefixes)
  }

  method GroupByAttributes(desired: RibOut, rib: RibOut, force: bool, key: Encoding) returns (groups: map<seq<U8>, Group>)
    ensures Grouped(groups, desired, rib, force, key, desired.Keys)
  {
    groups := map[];
    var todo := desired.Keys;
    while todo != {}
      invariant todo <= desired.Keys
      invariant Grouped(groups, desired, rib, force, key, desired.Keys - todo)
      decreases |todo|
    {
      var p :| p in todo;
      if Due(rib, desired, force, p) {
        var k := key(desired[p]);
        var g := if k in groups then Group(groups[k].route, groups[k].prefixes + [p]) else Group(desired[p], [p]);
        GroupExtended(groups, desired, rib, force, key, desired.Keys - todo, p, g);
        groups := groups[k := g];
      }
      todo := todo - {p};
    }
  }

  lemma GroupExtended(groups: map<seq<U8>, Group>, desired: RibOut, rib: RibOut, force: bool, key: Encoding,
                      done: set<Prefix>, p: Prefix, g: Group)
    requires Grouped(groups, desired, rib, force, key, done) && p in desired && Due(rib, desired, force, p)
    requires var k := key(desired[p]);
             g == if k in groups then Group(groups[k].route, groups[k].prefixes + [p]) else Group(desired[p], [p])
    ensures Grouped(groups[key(desired[p]) := g], desired, rib, force, key, done + {p})
  {
    assert GroupOk(g, key(desired[p]), desired, rib, force, key);
  }

  // ------------------------------------------------------------- session state

  /** Adj-RIB-Out, refresh request, RFC 7313 phase, and the messages accepted by the transport. */
  datatype Out = Out(ribOut: RibOut, pending: bool, phase: Option<Phase>, wire: seq<Pdu>) {

    /**
     The Adj-RIB-Out is what the messages sent add up to. While a replay runs,
     everything replayed so far is current; once EoRR is owed, everything is replayed.
     */
    ghost predicate Valid() {
      && Fold(wire) == ribOut
      && (phase == Some(Replaying) || phase == Some(NeedEorr) ==> InReplay(wire))
      && (phase == Some(Replaying) ==> Submap(SinceBorr(wire), ribOut))
      && (phase == Some(NeedEorr) ==> SinceBorr(wire) == ribOut)
      && (phase == Some(NeedBorr) || phase == Some(Replaying) ==> pending)
      && RefreshesComplete(wire)
    }

    /** A message that was written and recorded. */
    function Sent(m: Pdu): Out {
      this.(wire := wire + [m], ribOut := FoldOne(ribOut, m))
    }

    function SentAll(ms: seq<Pdu>): Out {
      this.(wire := wire + ms, ribOut := Hear(ribOut, ms))
    }
  }

  lemma SentKeepsValid(o: Out, m: Pdu)
    requires o.Valid() && (m.Withdrawal? || m.Announcement?)
    ensures o.Sent(m).Valid()
  {
    FoldSnoc(o.wire, m);
    CompleteSnoc(o.wire, m);
    if o.phase == Some(Replaying) {
      FoldKeepsSubmap(SinceBorr(o.wire), o.ribOut, m);
    }
  }

  lemma BorrKeepsValid(o: Out)
    requires o.Valid() && o.pending
    ensures o.Sent(Borr).(phase := Some(Replaying)).Valid()
  {
    FoldSnoc(o.wire, Borr);
    CompleteSnoc(o.wire, Borr);
  }

  lemma EorrKeepsValid(o: Out)
    requires o.Valid() && o.phase == Some(NeedEorr)
    ensures o.Sent(Eorr).(phase := None).Valid()
  {
    FoldSnoc(o.wire, Eorr);
    CompleteSnoc(o.wire, Eorr);
  }

  // ------------------------------------------------- what a pass tells a listener

  lemma {:induction false} HearAppend(x: RibOut, a: seq<Pdu>, b: seq<Pdu>)
    ensures Hear(x, a + b) == Hear(Hear(x, a), b)
    decreases |b|
  {
    if b == [] {
      assert a + b == a;
    } else {
      assert (a + b)[..|a + b| - 1] == a + b[..|b| - 1];
      HearAppend(x, a, b[..|b| - 1]);
    }
  }

  lemma HearSnoc(x: RibOut, ms: seq<Pdu>, m: Pdu)
    ensures Hear(x, ms + [m]) == FoldOne(Hear(x, ms), m)
  {
    assert (ms + [m])[..|ms|] == ms;
  }

  ghost predicate SameAt(a: RibOut, b: RibOut, p: Prefix) {
    (p in a <==> p in b) && (p in a ==> a[p] == b[p])
  }

  /** A message of one pass: a withdrawal of what is no longer wanted, or due prefixes that share an encoding. */
  ghost predicate PassMessage(m: Pdu, rib: RibOut, desired: RibOut, force: bool, key: Encoding) {
    match m
    case Withdrawal(ps) => forall p :: p in ps ==> p in rib && p !in desired
    case Announcement(route, ps) =>
      && (exists q :: q in desired && desired[q] == route)
      && forall p :: p in ps ==> p in desired && Due(rib, desired, force, p) && key(desired[p]) == key(route)
    case Borr => false
    case Eorr => false
  }

  ghost predicate PassMessages(sent: seq<Pdu>, rib: RibOut, desired: RibOut, force: bool, key: Encoding) {
    forall i :: 0 <= i < |sent| ==> PassMessage(sent[i], rib, desired, force, key)
  }

  lemma MessagesAppend(a: seq<Pdu>, b: seq<Pdu>, rib: RibOut, desired: RibOut, force: bool, key: Encoding)
    requires PassMessages(a, rib, desired, force, key) && PassMessages(b, rib, desired, force, key)
    ensures PassMessages(a + b, rib, desired, force, key)
  {}

  ghost predicate Announces(sent: seq<Pdu>, p: Prefix) {
    exists i :: 0 <= i < |sent| && sent[i].Announcement? && p in sent[i].prefixes
  }

  ghost predicate Withdraws(sent: seq<Pdu>, p: Prefix) {
    exists i :: 0 <= i < |sent| && sent[i].Withdrawal? && p in sent[i].prefixes
  }

  /** Nothing that was due or no longer wanted is missing. */
  ghost predicate WholePass(sent: seq<Pdu>, rib: RibOut, desired: RibOut, force: bool) {
    && (forall p :: p in desired && Due(rib, desired, force, p) ==> Announces(sent, p))
    && (forall p :: p in rib && p !in desired ==> Withdraws(sent, p))
  }

  predicate Mentions(m: Pdu, p: Prefix) {
    (m.Announcement? || m.Withdrawal?) && p in m.prefixes
  }

  lemma MentionsStep(sent: seq<Pdu>, p: Prefix)
    requires sent != []
    ensures var n := |sent| - 1;
            && (Announces(sent, p) <==> Announces(sent[..n], p) || (sent[n].Announcement? && p in sent[n].prefixes))
            && (Withdraws(sent, p) <==> Withdraws(sent[..n], p) || (sent[n].Withdrawal? && p in sent[n].prefixes))
  {
    var n := |sent| - 1;
    assert forall i :: 0 <= i < n ==> sent[..n][i] == sent[i];
    if i :| 0 <= i < n && sent[..n][i].Announcement? && p in sent[..n][i].prefixes {
      assert sent[i].Announcement?;
    }
    if i :| 0 <= i < n && sent[..n][i].Withdrawal? && p in sent[..n][i].prefixes {
      assert sent[i].Withdrawal?;
    }
    if i :| 0 <= i < n && Mentions(sent[i], p) {
      assert sent[..n][i] == sent[i];
    }
  }

  /** What the listener has for one prefix after the messages of a pass. */
  ghost predicate HeardAt(x: RibOut, y: RibOut, sent: seq<Pdu>, desired: RibOut, key: Encoding, p: Prefix) {
    if Announces(sent, p) then p in desired && p in y && (Distinguishes(key, desired) ==> y[p] == desired[p])
    else if Withdraws(sent, p) then p !in y
    else SameAt(y, x, p)
  }

  lemma HearOne(x: RibOut, m: Pdu, rib: RibOut, desired: RibOut, force: bool, key: Encoding, p: Prefix)
    requires PassMessage(m, rib, desired, force, key)
    ensures var y := FoldOne(x, m);
            if m.Announcement? && p in m.prefixes then p in desired && p in y && (Distinguishes(key, desired) ==> y[p] == desired[p])
            else if m.Withdrawal? && p in m.prefixes then p !in y && p !in desired
            else SameAt(y, x, p)
  {
    if m.Announcement? && p in m.prefixes {
      var q :| q in desired && desired[q] == m.route;
      assert key(desired[p]) == key(desired[q]);
    }
  }

  lemma {:induction false} HearPass(x: RibOut, sent: seq<Pdu>, rib: RibOut, desired: RibOut, force: bool, key: Encoding, p: Prefix)
    requires PassMessages(sent, rib, desired, force, key)
    ensures HeardAt(x, Hear(x, sent), sent, desired, key, p)
    ensures Announces(sent, p) ==> p in desired && Due(rib, desired, force, p)
    ensures Withdraws(sent, p) ==> p in rib && p !in desired
    decreases |sent|
  {
    if sent != [] {
      var n := |sent| - 1;
      HearPass(x, sent[..n], rib, desired, force, key, p);
      MentionsStep(sent, p);
      HearOne(Hear(x, sent[..n]), sent[n], rib, desired, force, key, p);
      assert PassMessage(sent[n], rib, desired, force, key);
    }
  }

  /** The listener has whatever the pass leaves out, and nothing the sender does not know of. */
  ghost predicate Prepared(x: RibOut, rib: RibOut, desired: RibOut, force: bool) {
    && (forall p :: p in desired ==> Due(rib, desired, force, p) || (p in x && x[p] == desired[p]))
    && (forall p :: p in x ==> p in desired || p in rib)
  }

  /** After a whole pass the listener holds the desired routes if and only if it was prepared. */
  lemma ListenerConvergesIff(x: RibOut, sent: seq<Pdu>, rib: RibOut, desired: RibOut, force: bool, key: Encoding)
    requires PassMessages(sent, rib, desired, force, key) && Distinguishes(key, desired)
    requires WholePass(sent, rib, desired, force)
    ensures Hear(x, sent) == desired <==> Prepared(x, rib, desired, force)
  {
    var y := Hear(x, sent);
    forall p
      ensures p in desired && Due(rib, desired, force, p) ==> p in y && y[p] == desired[p]
      ensures p in desired && !Due(rib, desired, force, p) ==> SameAt(y, x, p)
      ensures p !in desired ==> (p in y <==> p in x && p !in rib)
    {
      HearPass(x, sent, rib, desired, force, key, p);
    }
    if y == desired {
      forall p | p in desired ensures Due(rib, desired, force, p) || (p in x && x[p] == desired[p]) {
        assert p in y;
      }
      forall p | p in x ensures p in desired || p in rib {
        assert p in y <==> p in desired;
      }
    }
    if Prepared(x, rib, desired, force) {
      assert forall p :: (p in y <==> p in desired) && (p in y ==> y[p] == desired[p]);
    }
  }

  /** Outside a refresh nothing is said about a route that is advertised as it should be. */
  lemma NothingRepeated(sent: seq<Pdu>, rib: RibOut, desired: RibOut, key: Encoding, p: Prefix)
    requires PassMessages(sent, rib, desired, false, key) && p in rib && p in desired && rib[p] == desired[p]
    ensures forall i :: 0 <= i < |sent| ==> !Mentions(sent[i], p)
  {
    forall i | 0 <= i < |sent| ensures !Mentions(sent[i], p) {
      assert PassMessage(sent[i], rib, desired, false, key);
    }
  }

  /** Where the sender's record is what the listener holds, every whole pass converges. */
  lemma RecordPrepares(rib: RibOut, desired: RibOut, force: bool)
    ensures Prepared(rib, rib, desired, force)
  {}

  predicate AllDue(rib: RibOut, desired: RibOut, force: bool) {
    forall p :: p in desired ==> Due(rib, desired, force, p)
  }

  /** A listener that holds nothing is prepared exactly when everything desired is due. */
  lemma NothingHeldIff(rib: RibOut, desired: RibOut, force: bool)
    ensures Prepared(map[], rib, desired, force) <==> AllDue(rib, desired, force)
  {}

  /** What everything written on a connection adds up to after a whole pass. */
  lemma PassOutcome(wire: seq<Pdu>, sent: seq<Pdu>, rib: RibOut, desired: RibOut, force: bool, key: Encoding)
    requires PassMessages(sent, rib, desired, force, key) && WholePass(sent, rib, desired, force) && Distinguishes(key, desired)
    ensures Fold(wire + sent) == desired <==> Prepared(Fold(wire), rib, desired, force)
  {
    HearAppend(map[], wire, sent);
    ListenerConvergesIff(Fold(wire), sent, rib, desired, force, key);
  }

  // -------------------------------------------------------- what a pass records

  lemma PassKeysAt(rib: RibOut, sent: seq<Pdu>, desired: RibOut, force: bool, key: Encoding, p: Prefix)
    requires PassMessages(sent, rib, desired, force, key) && WholePass(sent, rib, desired, force)
    ensures p in Hear(rib, sent) <==> p in desired
  {
    HearPass(rib, sent, rib, desired, force, key, p);
  }

  lemma PassRoutes(rib: RibOut, sent: seq<Pdu>, desired: RibOut, force: bool, key: Encoding)
    requires PassMessages(sent, rib, desired, force, key) && WholePass(sent, rib, desired, force) && Distinguishes(key, desired)
    ensures Hear(rib, sent) == desired
  {
    RecordPrepares(rib, desired, force);
    ListenerConvergesIff(rib, sent, rib, desired, force, key);
  }

  lemma PassKeys(rib: RibOut, sent: seq<Pdu>, desired: RibOut, force: bool, key: Encoding, y: RibOut)
    requires PassMessages(sent, rib, desired, force, key) && WholePass(sent, rib, desired, force) && y == Hear(rib, sent)
    ensures y.Keys == desired.Keys
  {
    forall p ensures p in y <==> p in desired {
      PassKeysAt(rib, sent, desired, force, key, p);
    }
  }

  /** The Adj-RIB-Out after a whole pass lists exactly the desired prefixes, with their routes if encodings tell them apart. */
  lemma PassComplete(rib: RibOut, sent: seq<Pdu>, desired: RibOut, force: bool, key: Encoding)
    requires PassMessages(sent, rib, desired, force, key) && WholePass(sent, rib, desired, force)
    ensures Hear(rib, sent).Keys == desired.Keys
    ensures Distinguishes(key, desired) ==> Hear(rib, sent) == desired
  {
    PassKeys(rib, sent, desired, force, key, Hear(rib, sent));
    if Distinguishes(key, desired) {
      PassRoutes(rib, sent, desired, force, key);
    }
  }

  lemma {:induction false} SinceAppend(wire: seq<Pdu>, sent: seq<Pdu>, rib: RibOut, desired: RibOut, force: bool, key: Encoding)
    requires PassMessages(sent, rib, desired, force, key)
    ensures SinceBorr(wire + sent) == Hear(SinceBorr(wire), sent)
    decreases |sent|
  {
    if sent == [] {
      assert wire + sent == wire;
    } else {
      var n := |sent| - 1;
      SinceAppend(wire, sent[..n], rib, desired, force, key);
      assert wire + sent == (wire + sent[..n]) + [sent[n]];
      FoldSnoc(wire + sent[..n], sent[n]);
      assert PassMessage(sent[n], rib, desired, force, key);
    }
  }

  /** A whole pass of a refresh replays every prefix the Adj-RIB-Out then lists. */
  lemma ReplayCovers(wire: seq<Pdu>, rib: RibOut, sent: seq<Pdu>, desired: RibOut, key: Encoding)
    requires PassMessages(sent, rib, desired, true, key) && WholePass(sent, rib, desired, true)
    ensures forall p :: p in Hear(rib, sent) ==> p in SinceBorr(wire + sent)
  {
    PassComplete(rib, sent, desired, true, key);
    SinceAppend(wire, sent, rib, desired, true, key);
    forall p | p in Hear(rib, sent) ensures p in SinceBorr(wire + sent) {
      HearPass(SinceBorr(wire), sent, rib, desired, true, key, p);
    }
  }

  /** What was written of a pass, whole or not, keeps the session's invariant. */
  lemma {:induction false} PassKeepsValid(o: Out, sent: seq<Pdu>, rib: RibOut, desired: RibOut, force: bool, key: Encoding)
    requires o.Valid() && PassMessages(sent, rib, desired, force, key)
    ensures o.SentAll(sent).Valid()
    decreases |sent|
  {
    if sent == [] {
      assert o.SentAll(sent) == o;
    } else {
      var n := |sent| - 1;
      PassKeepsValid(o, sent[..n], rib, desired, force, key);
      assert PassMessage(sent[n], rib, desired, force, key);
      SentKeepsValid(o.SentAll(sent[..n]), sent[n]);
      assert o.wire + sent == o.wire + sent[..n] + [sent[n]];
    }
  }

  lemma SentAllSnoc(o: Out, ms: seq<Pdu>, m: Pdu)
    ensures o.SentAll(ms + [m]) == o.SentAll(ms).Sent(m)
  {
    HearSnoc(o.ribOut, ms, m);
    assert o.wire + (ms + [m]) == o.wire + ms + [m];
  }

  lemma SentAllAppend(o: Out, a: seq<Pdu>, b: seq<Pdu>)
    ensures o.SentAll(a + b) == o.SentAll(a).SentAll(b)
  {
    HearAppend(o.ribOut, a, b);
    assert o.wire + (a + b) == o.wire + a + b;
  }

  lemma ReplayComplete(since: RibOut, rib: RibOut)
    requires Submap(since, rib) && forall p :: p in rib ==> p in since
    ensures since == rib
  {}

  // ----------------------------------------- when the connection is replaced

  /**
   Adopting the neighbour's connection replaces the wire and keeps the rest: what the
   session relies on survives exactly when nothing was advertised and no replay was on.
   */
  lemma AdoptionKeepsValidIff(o: Out)
    requires o.Valid()
    ensures o.(wire := []).Valid() <==> o.ribOut == map[] && o.phase != Some(Replaying) && o.phase != Some(NeedEorr)
  {}

  /** The prefixes still advertised that should no longer be. */
  method NoLongerWanted(rib: RibOut, desired: RibOut) returns (ps: seq<Prefix>)
    ensures forall p :: p in ps <==> p in rib && p !in desired
  {
    ps := [];
    var todo := rib.Keys;
    while todo != {}
      invariant todo <= rib.Keys
      invariant forall p :: p in ps <==> p in rib && p !in todo && p !in desired
      decreases |todo|
    {
      var p :| p in todo;
      todo := todo - {p};
      if p !in desired {
        ps := ps + [p];
      }
    }
  }

  // ------------------------------------------------------------ the groups of a pass

  /** The announcement of a group is a message of the pass. */
  lemma GroupIsPassMessage(groups: map<seq<U8>, Group>, k: seq<U8>, desired: RibOut, rib: RibOut, force: bool, key: Encoding)
    requires Grouped(groups, desired, rib, force, key, desired.Keys) && k in groups
    ensures PassMessage(Announcement(groups[k].route, groups[k].prefixes), rib, desired, force, key)
  {
    assert GroupOk(groups[k], k, desired, rib, force, key);
  }

  /** The announcements of the groups in `done` are all among the messages. */
  ghost predicate GroupsSent(sent: seq<Pdu>, groups: map<seq<U8>, Group>, done: set<seq<U8>>) {
    forall k :: k in done && k in groups ==> Announcement(groups[k].route, groups[k].prefixes) in sent
  }

  lemma GroupsCoverDue(sent: seq<Pdu>, groups: map<seq<U8>, Group>, desired: RibOut, rib: RibOut, force: bool, key: Encoding, p: Prefix)
    requires Grouped(groups, desired, rib, force, key, desired.Keys) && GroupsSent(sent, groups, groups.Keys)
    requires p in desired && Due(rib, desired, force, p)
    ensures Announces(sent, p)
  {
    var g := groups[key(desired[p])];
    var i :| 0 <= i < |sent| && sent[i] == Announcement(g.route, g.prefixes);
  }

  lemma SomethingDue(groups: map<seq<U8>, Group>, desired: RibOut, rib: RibOut, force: bool, key: Encoding)
    requires Grouped(groups, desired, rib, force, key, desired.Keys)
    ensures groups.Keys != {} ==> exists p :: p in desired && Due(rib, desired, force, p)
  {
    if k :| k in groups {
      assert GroupOk(groups[k], k, desired, rib, force, key);
      assert groups[k].prefixes[0] in groups[k].prefixes;
    }
  }

  /** The groups in `done` were tried; with nothing refused so far they are all sent. */
  ghost predicate Midway(ok: bool, sent: seq<Pdu>, groups: map<seq<U8>, Group>, desired: RibOut, rib: RibOut, force: bool,
                         key: Encoding, done: set<seq<U8>>)
  {
    PassMessages(sent, rib, desired, force, key) && (ok ==> GroupsSent(sent, groups, done))
  }

  lemma MidwayStart(o: Out, groups: map<seq<U8>, Group>, desired: RibOut, rib: RibOut, force: bool, key: Encoding)
    ensures Midway(true, [], groups, desired, rib, force, key, groups.Keys - groups.Keys) && o.SentAll([]) == o
  {}

  lemma MidwayStep(ok: bool, sent: seq<Pdu>, groups: map<seq<U8>, Group>, desired: RibOut, rib: RibOut, force: bool,
                   key: Encoding, todo: set<seq<U8>>, k: seq<U8>)
    requires Grouped(groups, desired, rib, force, key, desired.Keys) && k in todo && todo <= groups.Keys
    requires Midway(ok, sent, groups, desired, rib, force, key, groups.Keys - todo)
    ensures var m := Announcement(groups[k].route, groups[k].prefixes);
            Midway(ok, sent + [m], groups, desired, rib, force, key, groups.Keys - (todo - {k}))
    ensures Midway(false, sent, groups, desired, rib, force, key, groups.Keys - (todo - {k}))
  {
    GroupIsPassMessage(groups, k, desired, rib, force, key);
    MessagesAppend(sent, [Announcement(groups[k].route, groups[k].prefixes)], rib, desired, force, key);
  }

  lemma AnnouncesMore(a: seq<Pdu>, b: seq<Pdu>, p: Prefix)
    ensures Announces(b, p) ==> Announces(a + b, p)
    ensures Withdraws(a, p) || Withdraws(b, p) ==> Withdraws(a + b, p)
  {
    if i :| 0 <= i < |b| && Mentions(b[i], p) {
      assert (a + b)[|a| + i] == b[i];
    }
    if i :| 0 <= i < |b| && b[i].Announcement? && p in b[i].prefixes {
      assert (a + b)[|a| + i].Announcement?;
    }
    if i :| 0 <= i < |b| && b[i].Withdrawal? && p in b[i].prefixes {
      assert (a + b)[|a| + i].Withdrawal?;
    }
    if i :| 0 <= i < |a| && a[i].Withdrawal? && p in a[i].prefixes {
      assert (a + b)[i].Withdrawal?;
    }
  }

  /** The withdrawal if one was needed, and every group: that is a whole pass. */
  lemma PassAssembled(a: seq<Pdu>, b: seq<Pdu>, groups: map<seq<U8>, Group>, desired: RibOut, rib: RibOut, force: bool, key: Encoding)
    requires Grouped(groups, desired, rib, force, key, desired.Keys) && GroupsSent(b, groups, groups.Keys)
    requires forall p :: p in rib && p !in desired ==> Withdraws(a, p)
    ensures WholePass(a + b, rib, desired, force)
  {
    forall p | p in desired && Due(rib, desired, force, p) ensures Announces(a + b, p) {
      GroupsCoverDue(b, groups, desired, rib, force, key, p);
      AnnouncesMore(a, b, p);
    }
    forall p | p in rib && p !in desired ensures Withdraws(a + b, p) {
      AnnouncesMore(a, b, p);
    }
  }

  // ------------------------------------------------------------------- the session

  class OutboundSession {
    const enhanced: bool
    const key: Encoding
    var ribOut: RibOut
    var pending: bool
    var phase: Option<Phase>
    var wire: seq<Pdu>
    /** How often the transport has refused a message. */
    ghost var refusals: nat

    ghost function View(): Out
      reads this
    {
      Out(ribOut, pending, phase, wire)
    }

    /** Holds from the start on, and until a connection is adopted in mid-session. */
    ghost predicate Valid()
      reads this
    {
      View().Valid()
    }

    constructor (enhanced: bool, key: Encoding)
      ensures Valid() && View() == Out(map[], false, None, []) && this.enhanced == enhanced && this.key == key
    {
      this.enhanced, this.key := enhanced, key;
      ribOut, pending, phase, wire, refusals := map[], false, None, [], 0;
    }

    /** The transport takes a whole message or nothing. */
    method SendPdu(m: Pdu) returns (ok: bool)
      modifies this`wire, this`refusals
      ensures wire == if ok then old(wire) + [m] else old(wire)
      ensures refusals == if ok then old(refusals) else old(refusals) + 1
    {
      ok := *;
      if ok {
        wire := wire + [m];
      } else {
        refusals := refusals + 1;
      }
    }

    /** ROUTE-REFRESH from the peer. */
    method RequestRefresh()
      modifies this`pending, this`phase
      ensures old(Valid()) ==> Valid()
      ensures View() == old(View()).(pending := true, phase := if enhanced then Some(NeedBorr) else old(phase))
    {
      pending := true;
      if enhanced {
        phase := Some(NeedBorr);
      }
    }

    /** BoRR, if one is owed; false means the pass cannot start. */
    method EnsureBorr() returns (ok: bool)
      requires pending
      modifies this`phase, this`wire, this`refusals
      ensures old(Valid()) ==> Valid()
      ensures refusals >= old(refusals) && (ok <==> refusals == old(refusals))
      ensures View() == if ok && old(phase) == Some(NeedBorr)
                        then old(View()).Sent(Borr).(phase := Some(Replaying)) else old(View())
      ensures ok ==> phase != Some(NeedBorr)
    {
      if phase != Some(NeedBorr) {
        return true;
      }
      if View().Valid() {
        BorrKeepsValid(View());
      }
      ok := SendPdu(Borr);
      if ok {
        phase := Some(Replaying);
      }
    }

    /** Withdraws what is no longer wanted, in one message, and says nothing if there is no such thing. */
    method SendWithdrawals(desired: RibOut, ghost force: bool) returns (ok: bool, ghost sent: seq<Pdu>)
      modifies this`ribOut, this`wire, this`refusals
      ensures refusals >= old(refusals) && (ok <==> refusals == old(refusals))
      ensures View() == old(View()).SentAll(sent) && PassMessages(sent, old(ribOut), desired, force, key)
      ensures ok ==> forall p :: p in old(ribOut) && p !in desired ==> Withdraws(sent, p)
      ensures old(ribOut.Keys) <= desired.Keys ==> ok && sent == []
    {
      var ps := NoLongerWanted(ribOut, desired);
      if ps == [] {
        assert forall p :: p in ribOut && p !in desired ==> p in ps;
        return true, [];
      }
      assert ps[0] in ps;
      ok := SendPdu(Withdrawal(ps));
      sent := if ok then [Withdrawal(ps)] else [];
      if ok {
        HearSnoc(ribOut, [], Withdrawal(ps));
        ribOut := Withdrawn(ribOut, ps);
        forall p | p in old(ribOut) && p !in desired ensures Withdraws(sent, p) {
          assert sent[0].Withdrawal? && p in sent[0].prefixes;
        }
      }
    }

    method SendGroup(g: Group) returns (ok: bool)
      modifies this`ribOut, this`wire, this`refusals
      ensures refusals >= old(refusals) && (ok <==> refusals == old(refusals))
      ensures View() == if ok then old(View()).Sent(Announcement(g.route, g.prefixes)) else old(View())
    {
      ok := SendPdu(Announcement(g.route, g.prefixes));
      if ok {
        ribOut := ribOut + Announced(g.route, g.prefixes);
      }
    }

    method SendNext(groups: map<seq<U8>, Group>, k: seq<U8>, ghost start: Out, ghost before: bool, ghost sofar: seq<Pdu>,
                    ghost desired: RibOut, ghost rib: RibOut, ghost force: bool, ghost todo: set<seq<U8>>)
      returns (taken: bool, ghost sent: seq<Pdu>)
      requires Grouped(groups, desired, rib, force, key, desired.Keys) && k in todo && todo <= groups.Keys
      requires View() == start.SentAll(sofar) && Midway(before, sofar, groups, desired, rib, force, key, groups.Keys - todo)
      modifies this`ribOut, this`wire, this`refusals
      ensures refusals >= old(refusals) && (taken <==> refusals == old(refusals))
      ensures View() == start.SentAll(sent)
      ensures Midway(before && taken, sent, groups, desired, rib, force, key, groups.Keys - (todo - {k}))
    {
      MidwayStep(before, sofar, groups, desired, rib, force, key, todo, k);
      SentAllSnoc(start, sofar, Announcement(groups[k].route, groups[k].prefixes));
      taken := SendGroup(groups[k]);
      sent := if taken then sofar + [Announcement(groups[k].route, groups[k].prefixes)] else sofar;
    }

    /** Every group in turn; one that is refused is skipped. */
    method SendGroups(groups: map<seq<U8>, Group>, ghost desired: RibOut, ghost rib: RibOut, ghost force: bool)
      returns (ok: bool, ghost sent: seq<Pdu>)
      requires Grouped(groups, desired, rib, force, key, desired.Keys)
      modifies this`ribOut, this`wire, this`refusals
      ensures refusals >= old(refusals) && (ok <==> refusals == old(refusals))
      ensures View() == old(View()).SentAll(sent) && Midway(ok, sent, groups, desired, rib, force, key, groups.Keys)
      ensures groups.Keys == {} ==> ok && sent == []
    {
      ok, sent := true, [];
      ghost var start := View();
      var todo := groups.Keys;
      MidwayStart(start, groups, desired, rib, force, key);
      while todo != {}
        invariant todo <= groups.Keys && View() == start.SentAll(sent)
        invariant Midway(ok, sent, groups, desired, rib, force, key, groups.Keys - todo)
        invariant groups.Keys == {} ==> ok && sent == []
        invariant refusals >= old(refusals) && (ok <==> refusals == old(refusals))
        decreases |todo|
      {
        var k :| k in todo;
        var taken;
        taken, sent := SendNext(groups, k, start, ok, sent, desired, rib, force, todo);
        ok := ok && taken;
        todo := todo - {k};
      }
      assert groups.Keys - todo == groups.Keys;
    }

    /** Withdrawals, then the groups of everything that changed, or with `force` of everything. */
    method SendChanges(desired: RibOut, force: bool) returns (complete: bool, ghost sent: seq<Pdu>)
      modifies this`ribOut, this`wire, this`refusals
      ensures refusals >= old(refusals) && (complete <==> refusals == old(refusals))
      ensures View() == old(View()).SentAll(sent) && PassMessages(sent, old(ribOut), desired, force, key)
      ensures complete ==> WholePass(sent, old(ribOut), desired, force)
      ensures !force && old(ribOut == desired) ==> complete && sent == []
    {
      var groups := GroupByAttributes(desired, ribOut, force, key);
      SomethingDue(groups, desired, ribOut, force, key);
      var cleared, withdrawn := SendWithdrawals(desired, force);
      var announced, messages := SendGroups(groups, desired, old(ribOut), force);
      complete := cleared && announced;
      sent := withdrawn + messages;
      SentAllAppend(old(View()), withdrawn, messages);
      MessagesAppend(withdrawn, messages, old(ribOut), desired, force, key);
      if complete {
        PassAssembled(withdrawn, messages, groups, desired, old(ribOut), force, key);
      }
    }

    /**
     One pass: withdraw what is no longer wanted, announce what changed (everything,
     in a refresh), skip whatever the transport does not take. `complete` reports that
     nothing was refused. What was sent is recorded as sent, and what a listener makes of
     it follows from the messages alone, whatever connection the Adj-RIB-Out dates from.
     */
    method Advertise(desired: RibOut) returns (complete: bool, ghost opening: seq<Pdu>, ghost sent: seq<Pdu>)
      modifies this
      ensures old(Valid()) ==> Valid()
      ensures refusals >= old(refusals) && (complete <==> refusals == old(refusals))
      ensures opening == [] || (opening == [Borr] && old(pending) && old(phase) == Some(NeedBorr))
      ensures wire == old(wire) + opening + sent && ribOut == Hear(old(ribOut), sent)
      ensures PassMessages(sent, old(ribOut), desired, old(pending), key)
      ensures complete ==> WholePass(sent, old(ribOut), desired, old(pending))
      ensures complete ==> ribOut.Keys == desired.Keys && (Distinguishes(key, desired) ==> ribOut == desired)
      ensures old(!pending && ribOut == desired) ==> complete && sent == []
      ensures pending == (old(pending) && !complete)
      ensures complete && old(pending) ==>
                phase == if old(phase) == Some(NeedBorr) || old(phase) == Some(Replaying) then Some(NeedEorr) else old(phase)
      ensures !old(pending) ==> phase == old(phase)
    {
      var force := pending;
      opening := [];
      if force {
        var started := EnsureBorr();
        if !started {
          return false, [], [];
        }
        opening := wire[|old(wire)|..];
      }
      ghost var start := View();
      complete, sent := SendChanges(desired, force);
      if old(Valid()) {
        PassKeepsValid(start, sent, start.ribOut, desired, force, key);
      }
      if complete {
        PassComplete(start.ribOut, sent, desired, force, key);
        if force {
          ReplayCovers(start.wire, start.ribOut, sent, desired, key);
          FinishReplay();
        }
      }
    }

    /** The whole outbound view went out: the request is served, and in an enhanced refresh EoRR is owed. */
    method FinishReplay()
      requires phase == Some(Replaying) ==> forall p :: p in ribOut ==> p in SinceBorr(wire)
      requires phase != Some(NeedBorr)
      modifies this`pending, this`phase
      ensures old(Valid()) ==> Valid()
      ensures !pending && phase == if old(phase) == Some(Replaying) then Some(NeedEorr) else old(phase)
    {
      if phase == Some(Replaying) {
        if View().Valid() {
          ReplayComplete(SinceBorr(wire), ribOut);
        }
        phase := Some(NeedEorr);
      }
      pending := false;
    }

    /** EoRR, once the replay is complete. */
    method SendEorrs()
      modifies this`phase, this`wire, this`refusals
      ensures old(Valid()) ==> Valid()
      ensures refusals >= old(refusals)
      ensures View() == if old(phase) == Some(NeedEorr) && refusals == old(refusals)
                        then old(View()).Sent(Eorr).(phase := None) else old(View())
      ensures old(phase) != Some(NeedEorr) ==> refusals == old(refusals)
    {
      if phase == Some(NeedEorr) {
        if View().Valid() {
          EorrKeepsValid(View());
        }
        var ok := SendPdu(Eorr);
        if ok {
          phase := None;
        }
      }
    }

    /** Collision resolution put the neighbour's connection in the place of this one. */
    method Adopt()
      modifies this`wire
      ensures View() == old(View()).(wire := [])
      ensures old(Valid()) ==> (Valid() <==> ribOut == map[] && phase != Some(Replaying) && phase != Some(NeedEorr))
    {
      if View().Valid() {
        AdoptionKeepsValidIff(View());
      }
      wire := [];
    }

    /** Session loss: the next session starts from nothing. */
    method Teardown()
      modifies this
      ensures Valid() && View() == Out(map[], false, None, [])
    {
      ribOut, pending, phase, wire := map[], false, None, [];
    }
  }

  // ------------------------------------------------- the first pass after an adoption

  /**
   Every message on a connection that carried nothing before, from a whole pass with the
   Adj-RIB-Out `rib` left over from the old one: they add up to the desired routes if and only
   if every one of these is due.
   */
  lemma AdoptedConnectionHearsAllIff(opening: seq<Pdu>, sent: seq<Pdu>, rib: RibOut, desired: RibOut, force: bool, key: Encoding, wire: seq<Pdu>)
    requires (opening == [] || opening == [Borr]) && wire == opening + sent
    requires PassMessages(sent, rib, desired, force, key) && WholePass(sent, rib, desired, force) && Distinguishes(key, desired)
    ensures Fold(wire) == desired <==> AllDue(rib, desired, force)
  {
    PassOutcome(opening, sent, rib, desired, force, key);
    HearSnoc(map[], [], Borr);
    assert Fold(opening) == map[];
    NothingHeldIff(rib, desired, force);
  }

  /**
   Whatever the session sent before: after the adoption of a connection, a pass in which
   nothing is refused tells the neighbour the desired routes if and only if every one of them
   is due, that is, if a refresh is on or none was advertised unchanged on the connection
   that is gone. The Adj-RIB-Out says in either case that it was told all of them.
   */
  method AdoptThenAdvertise(s: OutboundSession, desired: RibOut) returns (complete: bool)
    requires Distinguishes(s.key, desired)
    modifies s
    ensures complete ==> s.ribOut == desired
    ensures complete ==> (Fold(s.wire) == desired <==> AllDue(old(s.ribOut), desired, old(s.pending)))
  {
    s.Adopt();
    complete := FirstPass(s, desired);
  }

  method FirstPass(s: OutboundSession, desired: RibOut) returns (complete: bool)
    requires Distinguishes(s.key, desired) && s.wire == []
    modifies s
    ensures complete ==> s.ribOut == desired
    ensures complete ==> (Fold(s.wire) == desired <==> AllDue(old(s.ribOut), desired, old(s.pending)))
  {
    ghost var rib, force := s.ribOut, s.pending;
    ghost var opening, sent;
    complete, opening, sent := s.Advertise(desired);
    if complete {
      AdoptedConnectionHearsAllIff(opening, sent, rib, desired, force, s.key, s.wire);
    }
  }

  /**
   A new session advertises what is desired, adopts a connection and advertises again. If
   nothing was refused the first time, nothing is sent the second time, whatever the transport
   does: the neighbour is told none of the routes the Adj-RIB-Out lists.
   */
  method AdoptedConnectionHearsNothing(desired: RibOut, key: Encoding) returns (s: OutboundSession, first: bool)
    requires Distinguishes(key, desired)
    ensures fresh(s) && s.key == key
    ensures first ==> s.ribOut == desired && s.wire == [] && Fold(s.wire) == map[]
    ensures first ==> (s.Valid() <==> desired == map[])
  {
    s := new OutboundSession(false, key);
    ghost var opening, sent;
    first, opening, sent := s.Advertise(desired);
    s.Adopt();
    if first {
      var second;
      second, opening, sent := s.Advertise(desired);
    }
  }

  /** One route, taken by the transport the first time, shows that this happens. */
  lemma OneRouteGoesUntold(p: Prefix, route: AdvertisedRoute, key: Encoding)
    ensures var desired, ms := map[p := route], [Announcement(route, [p])];
            && Distinguishes(key, desired)
            && PassMessages(ms, map[], desired, false, key) && WholePass(ms, map[], desired, false) && Fold(ms) == desired
            && PassMessages([], desired, desired, false, key) && WholePass([], desired, desired, false) && Fold([]) == map[] != desired
  {
    var desired: RibOut, ms := map[p := route], [Announcement(route, [p])];
    assert p in desired && ms[0].Announcement? && p in ms[0].prefixes;
    RecordPrepares(map[], desired, false);
    ListenerConvergesIff(map[], ms, map[], desired, false, key);
  }

  /** An adoption while EoRR is owed: the new connection carries an EoRR without its BoRR. */
  lemma OrphanedEorr(o: Out)
    requires o.phase == Some(NeedEorr)
    ensures !RefreshesComplete(o.(wire := []).Sent(Eorr).wire)
  {
    var w := o.(wire := []).Sent(Eorr).wire;
    assert w == [Eorr] && w[0].Eorr? && w[..0] == [];
  }
}
